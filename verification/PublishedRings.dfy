/** The publisher and the ring it feeds, one step at a time.

    A call of the publisher is the ring's own push steps, one push after another; the consumer may take
    any of its steps in between. The publisher's own fields change together with the tail store that
    publishes a record: no other thread sees them. */
module PublishedRings {
  import opened Errors
  import Out = Publishers
  import Rings = SpscRings

  /** What the publisher's thread is doing: nothing, pushing the record it was offered, or draining. */
  datatype Task = Resting | Offering(record: Out.Record) | Draining

  /** The call under way, for the record: the publisher as it found it, and the pushes taken so far. */
  datatype Call = Call(before: Out.State, record: Out.Record, pushes: nat)

  datatype State = State(ring: Rings.State<Out.Record>, out: Out.State, task: Task, call: Call)

  datatype Step =
    | Offer(record: Out.Record)
    | Producer(step: Rings.Step<Out.Record>)
    | Consumer(step: Rings.Step<Out.Record>)

  predicate OfProducer(step: Rings.Step<Out.Record>) {
    step.HeadLoaded? || step.Scribbled? || step.SlotWritten? || step.TailStored?
  }

  predicate OfConsumer(step: Rings.Step<Out.Record>) {
    step.PopBegins? || step.BatchBegins? || step.TailLoaded? || step.SlotCopied? || step.HeadStored?
  }

  predicate Enabled(j: State, step: Step) {
    match step
    case Offer(_) => j.task.Resting? && j.ring.producer.Resting?
    case Producer(s) => !j.task.Resting? && OfProducer(s) && Rings.Enabled(j.ring, s)
    case Consumer(s) => OfConsumer(s) && Rings.Enabled(j.ring, s)
  }

  predicate Shaped(j: State) { j.ring.slots != [] && j.out.window != [] }

  function NextSlot(out: Out.State): Out.Slot
    requires out.window != []
  {
    out.window[Out.Index(out.next, |out.window|)]
  }

  /** The record is out; the drain goes on with the next one if it is held. */
  function Continued(ring: Rings.State<Out.Record>, out: Out.State, call: Call): State
    requires out.window != []
  {
    if NextSlot(out).Held? then State(Rings.Begun(ring, NextSlot(out).record), out, Draining, call)
    else State(ring, out, Resting, call)
  }

  function Advanced(j: State): Out.State
    requires Shaped(j) && (j.task.Draining? ==> NextSlot(j.out).Held?)
  {
    match j.task
    case Offering(record) => Out.Direct(j.out, record)
    case Draining => Out.Released(j.out)
    case Resting => j.out
  }

  function Pushing(j: State, s: Rings.Step<Out.Record>): State
    requires Shaped(j) && (j.task.Draining? ==> NextSlot(j.out).Held?) && Rings.Enabled(j.ring, s)
  {
    var ring := Rings.Next(j.ring, s);
    if s.TailStored? then Continued(ring, Advanced(j), j.call.(pushes := j.call.pushes + 1))
    else j.(ring := ring, task := if ring.producer.Resting? then Resting else j.task)
  }

  /** An offer of `next` starts a push; any other is settled on the spot, whatever the ring. */
  function Offered(j: State, record: Out.Record): State
    requires Shaped(j)
  {
    if record.sequence == j.out.next && record.Fits()
    then State(Rings.Begun(j.ring, record), j.out, Offering(record), Call(j.out, record, 0))
    else j.(out := Out.Offered(j.out, record, 0).0, call := Call(j.out, record, 0))
  }

  ghost predicate Sound(j: State, first: nat) {
    && Shaped(j)
    && Rings.Inv(j.ring)
    && j.ring.pushed == j.out.published
    && (j.task.Resting? <==> j.ring.producer.Resting?)
    && Out.Inv(j.out, first)
    && (j.task.Offering? ==> j.ring.producer.value == j.task.record && j.task.record.sequence == j.out.next)
    && (j.task.Draining? ==> NextSlot(j.out).Held? && j.ring.producer.value == NextSlot(j.out).record)
  }

  function Next(j: State, step: Step): State
    requires Shaped(j) && (j.task.Draining? ==> NextSlot(j.out).Held?) && Enabled(j, step)
  {
    match step
    case Offer(record) => Offered(j, record)
    case Producer(s) => Pushing(j, s)
    case Consumer(s) => j.(ring := Rings.Next(j.ring, s))
  }

  /** The step does not publish an offered record whose number is still held. */
  predicate Careful(j: State, step: Step)
    requires Shaped(j)
  {
    step.Producer? && step.step.TailStored? && j.task.Offering? ==> NextSlot(j.out).Free?
  }

  /** The step ends a call that was draining, the ring being full. */
  predicate StopsDraining(j: State, step: Step, after: State) {
    j.task.Draining? && step.Producer? && !step.step.TailStored? && after.task.Resting?
  }

  // ---- what every step keeps --------------------------------------------------------

  lemma BegunKeeps(ring: Rings.State<Out.Record>, value: Out.Record)
    requires Rings.Inv(ring) && ring.producer.Resting?
    ensures var after := Rings.Begun(ring, value);
            && Rings.Inv(after) && after.pushed == ring.pushed && after.popped == ring.popped
            && !after.producer.Resting? && after.producer.value == value
  {
    Rings.StepKeeps(ring, Rings.PushBegins(value));
  }

  lemma OfferKeeps(j: State, first: nat, record: Out.Record)
    requires Sound(j, first) && j.task.Resting?
    ensures Sound(Offered(j, record), first)
  {
    if record.sequence == j.out.next && record.Fits() {
      BegunKeeps(j.ring, record);
    } else {
      Out.OfferKeepsExactly(j.out, first, record, 0);
      Out.WindowKeepsItsSize(j.out, record, 0);
      QuietOffer(j.out, record);
    }
  }

  lemma QuietOffer(out: Out.State, record: Out.Record)
    requires out.window != [] && !(record.sequence == out.next && record.Fits())
    ensures Out.Offered(out, record, 0).0.published == out.published
  {}

  lemma StoreKeeps(j: State, first: nat)
    requires Sound(j, first) && !j.task.Resting? && j.ring.producer.StoringTail?
    requires Careful(j, Producer(Rings.TailStored))
    ensures Sound(Pushing(j, Rings.TailStored), first)
  {
    Rings.StepKeeps(j.ring, Rings.TailStored);
    var ring, out := Rings.Next(j.ring, Rings.TailStored), Advanced(j);
    if j.task.Offering? {
      Out.DirectKeeps(j.out, first, j.task.record);
    } else {
      Out.ReleasedKeeps(j.out, first);
    }
    if NextSlot(out).Held? {
      BegunKeeps(ring, NextSlot(out).record);
    }
  }

  lemma PushKeeps(j: State, first: nat, s: Rings.Step<Out.Record>)
    requires Sound(j, first) && Enabled(j, Producer(s)) && !s.TailStored?
    ensures Sound(Pushing(j, s), first)
  {
    Rings.StepKeeps(j.ring, s);
    PushHistories(j.ring, s);
  }

  lemma PushHistories(ring: Rings.State<Out.Record>, s: Rings.Step<Out.Record>)
    requires ring.slots != [] && OfProducer(s) && !s.TailStored? && Rings.Enabled(ring, s)
    ensures var after := Rings.Next(ring, s);
            && after.pushed == ring.pushed
            && (!after.producer.Resting? ==> after.producer.value == ring.producer.value)
  {}

  lemma PopKeeps(j: State, first: nat, s: Rings.Step<Out.Record>)
    requires Sound(j, first) && Enabled(j, Consumer(s))
    ensures Sound(j.(ring := Rings.Next(j.ring, s)), first)
  {
    Rings.StepKeeps(j.ring, s);
    PopHistories(j.ring, s);
  }

  lemma PopHistories(ring: Rings.State<Out.Record>, s: Rings.Step<Out.Record>)
    requires ring.slots != [] && OfConsumer(s) && Rings.Enabled(ring, s)
    ensures Rings.Next(ring, s).pushed == ring.pushed && Rings.Next(ring, s).producer == ring.producer
  {}

  /** Any step of a call, being one of the ring's, and any step of the consumer keeps both sound, and the ring's
      content what was published, exactly when it does not publish a number still held. */
  lemma StepKeepsExactly(j: State, first: nat, step: Step)
    requires Sound(j, first) && Enabled(j, step)
    ensures Sound(Next(j, step), first) <==> Careful(j, step)
  {
    if Careful(j, step) {
      StepKeeps(j, first, step);
    } else {
      CarelessSpoils(j, first);
    }
  }

  lemma CarelessSpoils(j: State, first: nat)
    requires Sound(j, first) && j.task.Offering? && NextSlot(j.out).Held? && Rings.Enabled(j.ring, Rings.TailStored)
    ensures !Sound(Pushing(j, Rings.TailStored), first)
  {
    Out.NextSlotHoldsNext(j.out, first);
    var direct := Out.Direct(j.out, j.task.record);
    assert Out.StaleAt(direct, Out.Index(j.out.next, |j.out.window|));
    Out.SpoiledIsNotInv(direct, first);
  }

  lemma StepKeeps(j: State, first: nat, step: Step)
    requires Sound(j, first) && Enabled(j, step) && Careful(j, step)
    ensures Sound(Next(j, step), first)
  {
    match step
    case Offer(record) => OfferKeeps(j, first, record);
    case Producer(s) => if s.TailStored? { StoreKeeps(j, first); } else { PushKeeps(j, first, s); }
    case Consumer(s) => PopKeeps(j, first, s);
  }

  // ---- whole runs ----------------------------------------------------------------------

  function New(slots: seq<Out.Record>, first: nat, pending: nat): State {
    State(Rings.Fresh(slots), Out.Start(first, pending), Resting, Call(Out.Start(first, pending), Out.Plain(0), 0))
  }

  /** Where a step leads, if it can be taken. */
  function Taken(j: State, step: Step): Option<State> {
    if Shaped(j) && (j.task.Draining? ==> NextSlot(j.out).Held?) && Enabled(j, step) then Some(Next(j, step)) else None
  }

  /** Where an interleaving leads, if each of its steps can be taken. */
  function After(start: State, steps: seq<Step>): Option<State> {
    if steps == [] then Some(start)
    else
      var before := After(start, steps[..|steps| - 1]);
      if before.None? then None else Taken(before.value, steps[|steps| - 1])
  }

  ghost predicate AlwaysCareful(start: State, steps: seq<Step>) {
    steps != [] ==>
      var front, last := steps[..|steps| - 1], steps[|steps| - 1];
      && AlwaysCareful(start, front)
      && (After(start, steps).Some? ==> Careful(After(start, front).value, last))
  }

  ghost predicate AlwaysSound(start: State, first: nat, steps: seq<Step>) {
    && (After(start, steps).Some? ==> Sound(After(start, steps).value, first))
    && (steps != [] ==> AlwaysSound(start, first, steps[..|steps| - 1]))
  }

  /** Over any interleaving: sound at every instant exactly when no number still held is published. */
  lemma {:induction false} EveryInterleaving(start: State, first: nat, steps: seq<Step>)
    requires Sound(start, first)
    ensures AlwaysSound(start, first, steps) <==> AlwaysCareful(start, steps)
  {
    if steps != [] {
      var front, last := steps[..|steps| - 1], steps[|steps| - 1];
      EveryInterleaving(start, first, front);
      if AlwaysSound(start, first, front) && After(start, steps).Some? {
        StepKeepsExactly(After(start, front).value, first, last);
      }
    }
  }

  /** At every instant, in the middle of calls too: what the consumer has popped is the feed from its first
      message on, and what it has yet to pop is at most a ring's worth. */
  lemma ConsumerSeesTheFeedInOrder(slots: seq<Out.Record>, first: nat, pending: nat, steps: seq<Step>, j: State)
    requires slots != [] && pending > 0 && After(New(slots, first, pending), steps) == Some(j)
    requires AlwaysCareful(New(slots, first, pending), steps)
    ensures Out.InOrder(j.ring.popped, first)
    ensures j.ring.popped <= j.ring.pushed == j.out.published
    ensures first + |j.ring.popped| <= j.out.next <= first + |j.ring.popped| + |j.ring.slots|
  {
    EveryInterleaving(New(slots, first, pending), first, steps);
  }

  // ---- while no drain is stopped -----------------------------------------------------------

  /** No call ended for want of room while it was draining. */
  ghost predicate NeverStopped(start: State, steps: seq<Step>) {
    steps != [] ==>
      var front, last := steps[..|steps| - 1], steps[|steps| - 1];
      && NeverStopped(start, front)
      && (After(start, steps).Some? ==> !StopsDraining(After(start, front).value, last, After(start, steps).value))
  }

  /** Except while draining, what comes next is not held. */
  predicate Rested(j: State) { Shaped(j) && (!j.task.Draining? ==> NextSlot(j.out).Free?) }

  lemma StepRests(j: State, step: Step)
    requires Rested(j) && Enabled(j, step) && (j.task.Draining? ==> NextSlot(j.out).Held?)
    ensures Careful(j, step)
    ensures Shaped(Next(j, step)) && (StopsDraining(j, step, Next(j, step)) || Rested(Next(j, step)))
  {
    match step
    case Offer(record) => OfferRests(j, record);
    case Producer(s) => SlotsStay(j.ring, s);
    case Consumer(s) => SlotsStay(j.ring, s);
  }

  lemma OfferRests(j: State, record: Out.Record)
    requires Rested(j) && j.task.Resting? && j.ring.producer.Resting?
    ensures Rested(Offered(j, record))
  {
    if j.out.next < record.sequence < j.out.next + |j.out.window| {
      Out.HeldElsewhere(j.out, record);
    }
  }

  /** While no drain is stopped nothing held is ever offered into the ring, whatever the caller does. */
  lemma {:induction false} NeverStoppedIsCareful(start: State, steps: seq<Step>)
    requires Rested(start) && NeverStopped(start, steps)
    ensures AlwaysCareful(start, steps)
    ensures After(start, steps).Some? ==> Rested(After(start, steps).value)
  {
    if steps != [] {
      var front, last := steps[..|steps| - 1], steps[|steps| - 1];
      NeverStoppedIsCareful(start, front);
      if After(start, steps).Some? {
        StepRests(After(start, front).value, last);
      }
    }
  }

  /** A call of the publisher ends early only because the ring was full at the head it saw. */
  lemma RefusedOnlyWhenFull(j: State, first: nat, seen: nat)
    requires Sound(j, first) && !j.task.Resting? && Enabled(j, Producer(Rings.HeadLoaded(seen)))
    ensures Next(j, Producer(Rings.HeadLoaded(seen))).task.Resting? <==> |j.out.published| - seen == |j.ring.slots|
  {
    Rings.RefusedExactlyWhenFull(j.ring, seen);
  }

  /** A consumer that keeps up sees the feed in order: if no drain was stopped, at every instant. */
  lemma KeepingUpIsInOrder(slots: seq<Out.Record>, first: nat, pending: nat, steps: seq<Step>, j: State)
    requires slots != [] && pending > 0 && After(New(slots, first, pending), steps) == Some(j)
    requires NeverStopped(New(slots, first, pending), steps)
    ensures Out.InOrder(j.ring.popped, first) && j.ring.popped <= j.out.published
    ensures first + |j.ring.popped| <= j.out.next <= first + |j.ring.popped| + |j.ring.slots|
  {
    NeverStoppedIsCareful(New(slots, first, pending), steps);
    ConsumerSeesTheFeedInOrder(slots, first, pending, steps, j);
  }

  // ---- a call is an offer ----------------------------------------------------------------

  /** In the middle of a call the publisher is where an offer with that much room, and more, would be. */
  ghost predicate Tracks(j: State) {
    && Shaped(j) && j.call.before.window != []
    && (j.task.Offering? ==> j.call == Call(j.out, j.task.record, 0) && j.task.record.sequence == j.out.next && j.task.record.Fits())
    && (j.task.Draining? ==>
          && NextSlot(j.out).Held?
          && forall room: nat :: room >= j.call.pushes ==>
                Out.Offered(j.call.before, j.call.record, room) == Out.Drained(j.out, room - j.call.pushes))
  }

  lemma StepTracks(j: State, step: Step)
    requires Tracks(j) && Enabled(j, step)
    ensures Tracks(Next(j, step))
  {
    match step
    case Offer(record) => Out.WindowKeepsItsSize(j.out, record, 0);
    case Producer(s) => PushTracks(j, s);
    case Consumer(s) => SlotsStay(j.ring, s);
  }

  lemma SlotsStay(ring: Rings.State<Out.Record>, s: Rings.Step<Out.Record>)
    requires ring.slots != [] && Rings.Enabled(ring, s)
    ensures |Rings.Next(ring, s).slots| == |ring.slots|
  {}

  lemma PushTracks(j: State, s: Rings.Step<Out.Record>)
    requires Tracks(j) && Enabled(j, Producer(s))
    ensures Tracks(Pushing(j, s))
  {
    SlotsStay(j.ring, s);
    if s.TailStored? {
      StoreTracks(j);
    }
  }

  lemma StoreTracks(j: State)
    requires Tracks(j) && !j.task.Resting?
    ensures var out := Advanced(j);
            |out.window| == |j.out.window| &&
            forall room: nat :: room >= j.call.pushes + 1 ==>
              Out.Offered(j.call.before, j.call.record, room) == Out.Drained(out, room - (j.call.pushes + 1))
  {
    var out := Advanced(j);
    forall room: nat | room >= j.call.pushes + 1
      ensures Out.Offered(j.call.before, j.call.record, room) == Out.Drained(out, room - (j.call.pushes + 1))
    {
      if j.task.Draining? {
        assert Out.Offered(j.call.before, j.call.record, room) == Out.Drained(j.out, room - j.call.pushes);
      }
    }
  }

  lemma {:induction false} EveryCallTracks(start: State, steps: seq<Step>)
    requires Tracks(start)
    ensures After(start, steps).Some? ==> Tracks(After(start, steps).value)
  {
    if steps != [] {
      var front, last := steps[..|steps| - 1], steps[|steps| - 1];
      EveryCallTracks(start, front);
      if After(start, steps).Some? {
        StepTracks(After(start, front).value, last);
      }
    }
  }

  /** A call that ends, finished or refused, has done what one offer does with room for the pushes it took,
      and its answer is whether nothing is left to drain. */
  lemma CallIsAnOffer(j: State, s: Rings.Step<Out.Record>)
    requires Tracks(j) && Enabled(j, Producer(s)) && Pushing(j, s).task.Resting?
    ensures var after := Pushing(j, s);
            after.call.before == j.call.before && after.call.record == j.call.record &&
            Out.Offered(j.call.before, j.call.record, after.call.pushes) == (after.out, s.TailStored?)
  {
    if s.TailStored? {
      StoreTracks(j);
      assert Out.Drained(Advanced(j), 0) == (Advanced(j), true);
    } else if j.task.Draining? {
      assert Out.Drained(j.out, 0) == (j.out, false);
      assert Out.Offered(j.call.before, j.call.record, j.call.pushes) == Out.Drained(j.out, 0);
    }
  }
}
