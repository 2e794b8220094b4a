/** A single-producer single-consumer ring as two threads taking small steps.

    Each step touches shared memory at most once: one load of the other side's index, one write into a
    slot, one copy out of a slot, or one store of an index. A load may return any value between the
    last one seen and the current one. A slot being written may hold anything until the write is done.
    `pushed` and `popped` are histories: the records whose tail store, or head store, has happened. */
module SpscRings {
  import opened Arithmetic

  datatype Producer<T> =
    | Resting
    | LoadingHead(value: T)
    | Writing(value: T)
    | StoringTail(value: T)

  datatype Consumer<T> =
    | Waiting
    | LoadingTail
    | LoadingTailForBatch(limit: nat)
    | Copying(out: seq<T>, taking: nat)

  datatype State<T> = State(
    slots: seq<T>, tail: nat, head: nat, cachedHead: nat, cachedTail: nat, refused: nat,
    producer: Producer<T>, consumer: Consumer<T>, pushed: seq<T>, popped: seq<T>)

  datatype Step<T> =
    | PushBegins(value: T)
    | HeadLoaded(seen: nat)
    | Scribbled(junk: T)
    | SlotWritten
    | TailStored
    | PopBegins
    | BatchBegins(limit: nat)
    | TailLoaded(seen: nat)
    | SlotCopied
    | HeadStored

  predicate Enabled<T(!new)>(s: State<T>, step: Step<T>) {
    match step
    case PushBegins(_) => s.producer.Resting?
    case HeadLoaded(seen) => s.producer.LoadingHead? && s.cachedHead <= seen <= s.head
    case Scribbled(_) => s.producer.Writing?
    case SlotWritten => s.producer.Writing?
    case TailStored => s.producer.StoringTail?
    case PopBegins => s.consumer.Waiting?
    case BatchBegins(_) => s.consumer.Waiting?
    case TailLoaded(seen) => (s.consumer.LoadingTail? || s.consumer.LoadingTailForBatch?) && s.cachedTail <= seen <= s.tail
    case SlotCopied => s.consumer.Copying? && |s.consumer.out| < s.consumer.taking
    case HeadStored => s.consumer.Copying? && |s.consumer.out| == s.consumer.taking
  }

  /** `tail - head >= capacity`, as unsigned subtraction of indices that never pass each other. */
  predicate LooksFull<T>(s: State<T>, head: nat) { s.tail >= head + |s.slots| }

  function Begun<T>(s: State<T>, value: T): State<T> {
    s.(producer := if LooksFull(s, s.cachedHead) then LoadingHead(value) else Writing(value))
  }

  function Reloaded<T>(s: State<T>, seen: nat): State<T>
    requires s.producer.LoadingHead?
  {
    if LooksFull(s, seen) then s.(cachedHead := seen, refused := s.refused + 1, producer := Resting)
    else s.(cachedHead := seen, producer := Writing(s.producer.value))
  }

  function Put<T>(s: State<T>, x: T): State<T>
    requires s.slots != []
  {
    s.(slots := s.slots[s.tail % |s.slots| := x])
  }

  function Published<T>(s: State<T>): State<T>
    requires s.producer.StoringTail?
  {
    s.(tail := s.tail + 1, producer := Resting, pushed := s.pushed + [s.producer.value])
  }

  function Looked<T>(s: State<T>): State<T> {
    s.(consumer := if s.head >= s.cachedTail then LoadingTail else Copying([], 1))
  }

  function Caught<T>(s: State<T>, seen: nat): State<T>
    requires s.consumer.LoadingTail? || s.consumer.LoadingTailForBatch?
  {
    var available := if seen >= s.head then seen - s.head else 0;
    var taking := match s.consumer
      case LoadingTailForBatch(limit) => if available < limit then available else limit
      case _ => if available == 0 then 0 else 1;
    s.(cachedTail := seen, consumer := if taking == 0 then Waiting else Copying([], taking))
  }

  function Copied<T>(s: State<T>): State<T>
    requires s.slots != [] && s.consumer.Copying?
  {
    var at := (s.head + |s.consumer.out|) % |s.slots|;
    s.(consumer := s.consumer.(out := s.consumer.out + [s.slots[at]]))
  }

  function Taken<T>(s: State<T>): State<T>
    requires s.consumer.Copying?
  {
    s.(head := s.head + s.consumer.taking, consumer := Waiting, popped := s.popped + s.consumer.out)
  }

  function Next<T(!new)>(s: State<T>, step: Step<T>): State<T>
    requires s.slots != [] && Enabled(s, step)
  {
    match step
    case PushBegins(value) => Begun(s, value)
    case HeadLoaded(seen) => Reloaded(s, seen)
    case Scribbled(junk) => Put(s, junk)
    case SlotWritten => Put(s, s.producer.value).(producer := StoringTail(s.producer.value))
    case TailStored => Published(s)
    case PopBegins => Looked(s)
    case BatchBegins(limit) => s.(consumer := LoadingTailForBatch(limit))
    case TailLoaded(seen) => Caught(s, seen)
    case SlotCopied => Copied(s)
    case HeadStored => Taken(s)
  }

  // ---- what every step keeps -------------------------------------------------------

  /** The order of the indices, at every instant and not only between operations. */
  ghost predicate Ordered<T>(s: State<T>) {
    s.cachedHead <= s.head <= s.cachedTail <= s.tail <= s.cachedHead + |s.slots|
  }

  ghost predicate HoldsUnread<T>(s: State<T>)
    requires s.slots != []
  {
    |s.pushed| == s.tail && forall i :: s.head <= i < s.tail ==> s.slots[i % |s.slots|] == s.pushed[i]
  }

  ghost predicate ProducerSound<T>(s: State<T>)
    requires s.slots != []
  {
    && (s.producer.Writing? || s.producer.StoringTail? ==> !LooksFull(s, s.cachedHead))
    && (s.producer.StoringTail? ==> s.slots[s.tail % |s.slots|] == s.producer.value)
  }

  ghost predicate ConsumerSound<T>(s: State<T>) {
    && s.head <= |s.pushed|
    && s.popped == s.pushed[..s.head]
    && (s.consumer.Copying? ==>
          && |s.consumer.out| <= s.consumer.taking
          && 0 < s.consumer.taking
          && s.head + s.consumer.taking <= s.cachedTail <= |s.pushed|
          && s.consumer.out == s.pushed[s.head..s.head + |s.consumer.out|])
  }

  ghost predicate Inv<T>(s: State<T>) {
    s.slots != [] && Ordered(s) && HoldsUnread(s) && ProducerSound(s) && ConsumerSound(s)
  }

  /** Indices less than a lap apart never share a slot. */
  lemma ApartWithinALap(i: nat, j: nat, n: nat)
    requires i < j < i + n
    ensures i % n != j % n
  {
    if i % n == j % n {
      OnePerResidue(i, j, n);
    }
  }

  /** The slot the producer writes holds nothing unread. */
  lemma WrittenSlotIsFree<T>(s: State<T>, i: nat)
    requires Inv(s) && s.producer.Writing? && s.head <= i < s.tail
    ensures i % |s.slots| != s.tail % |s.slots|
  {
    ApartWithinALap(i, s.tail, |s.slots|);
  }

  /** The two threads never work on one slot at once, so no copy can see a half-written record. */
  lemma NoRace<T>(s: State<T>, i: nat)
    requires Inv(s) && s.producer.Writing? && s.consumer.Copying?
    requires s.head <= i < s.head + s.consumer.taking
    ensures i % |s.slots| != s.tail % |s.slots|
  {
    WrittenSlotIsFree(s, i);
  }

  lemma PutKeeps<T>(s: State<T>, x: T)
    requires Inv(s) && s.producer.Writing?
    ensures Inv(Put(s, x)) && Put(s, x).slots[s.tail % |s.slots|] == x
  {
    var p := Put(s, x);
    forall i | p.head <= i < p.tail ensures p.slots[i % |p.slots|] == p.pushed[i] {
      WrittenSlotIsFree(s, i);
    }
  }

  lemma CopiedKeeps<T>(s: State<T>)
    requires Inv(s) && s.consumer.Copying? && |s.consumer.out| < s.consumer.taking
    ensures Inv(Copied(s))
  {
    var i := s.head + |s.consumer.out|;
    assert s.slots[i % |s.slots|] == s.pushed[i];
  }

  lemma TakenKeeps<T>(s: State<T>)
    requires Inv(s) && s.consumer.Copying? && |s.consumer.out| == s.consumer.taking
    ensures Inv(Taken(s))
  {
  }

  lemma PublishedKeeps<T>(s: State<T>)
    requires Inv(s) && s.producer.StoringTail?
    ensures Inv(Published(s))
  {
    var p := Published(s);
    forall i | p.head <= i < p.tail ensures p.slots[i % |p.slots|] == p.pushed[i] {
      assert i < s.tail ==> s.slots[i % |s.slots|] == s.pushed[i];
    }
  }

  lemma StepKeeps<T(!new)>(s: State<T>, step: Step<T>)
    requires Inv(s) && Enabled(s, step)
    ensures Inv(Next(s, step)) && |Next(s, step).slots| == |s.slots|
  {
    match step
    case PushBegins(_) =>
    case HeadLoaded(seen) => ReloadedKeeps(s, seen);
    case Scribbled(junk) => PutKeeps(s, junk);
    case SlotWritten => PutKeeps(s, s.producer.value);
    case TailStored => PublishedKeeps(s);
    case PopBegins => LookedKeeps(s);
    case BatchBegins(_) =>
    case TailLoaded(seen) => CaughtKeeps(s, seen);
    case SlotCopied => CopiedKeeps(s);
    case HeadStored => TakenKeeps(s);
  }

  lemma ReloadedKeeps<T>(s: State<T>, seen: nat)
    requires Inv(s) && s.producer.LoadingHead? && s.cachedHead <= seen <= s.head
    ensures Inv(Reloaded(s, seen))
  {}

  lemma LookedKeeps<T>(s: State<T>)
    requires Inv(s) && s.consumer.Waiting?
    ensures Inv(Looked(s))
  {}

  lemma CaughtKeeps<T>(s: State<T>, seen: nat)
    requires Inv(s) && (s.consumer.LoadingTail? || s.consumer.LoadingTailForBatch?) && s.cachedTail <= seen <= s.tail
    ensures Inv(Caught(s, seen))
  {}

  /** Pushes finished, refused or in flight. */
  function Attempts<T>(s: State<T>): nat {
    |s.pushed| + s.refused + if s.producer.Resting? then 0 else 1
  }

  lemma StepCounts<T(!new)>(s: State<T>, step: Step<T>)
    requires s.slots != [] && Enabled(s, step)
    ensures Attempts(Next(s, step)) == Attempts(s) + if step.PushBegins? then 1 else 0
  {
  }

  // ---- whole runs ------------------------------------------------------------------

  function Fresh<T>(slots: seq<T>): State<T> {
    State(slots, 0, 0, 0, 0, 0, Resting, Waiting, [], [])
  }

  /** Whether `s` can be reached by these steps, in this order, from a new ring. */
  ghost predicate Reaches<T(!new)>(slots: seq<T>, steps: seq<Step<T>>, s: State<T>)
    requires slots != []
    decreases |steps|
  {
    if steps == [] then s == Fresh(slots)
    else
      exists before: State<T> {:trigger Reaches(slots, steps[..|steps| - 1], before)} ::
        && Reaches(slots, steps[..|steps| - 1], before)
        && before.slots != [] && Enabled(before, steps[|steps| - 1])
        && s == Next(before, steps[|steps| - 1])
  }

  lemma {:induction false} EveryInterleaving<T(!new)>(slots: seq<T>, steps: seq<Step<T>>, s: State<T>)
    requires slots != [] && Reaches(slots, steps, s)
    ensures Inv(s) && |s.slots| == |slots|
    decreases |steps|
  {
    if steps != [] {
      var front := steps[..|steps| - 1];
      var before: State<T> :| Reaches(slots, front, before) && before.slots != []
                              && Enabled(before, steps[|steps| - 1]) && s == Next(before, steps[|steps| - 1]);
      EveryInterleaving(slots, front, before);
      StepKeeps(before, steps[|steps| - 1]);
    }
  }

  /** First in, first out, for every interleaving and every stale load. */
  lemma PoppedIsPrefixOfPushed<T(!new)>(slots: seq<T>, steps: seq<Step<T>>, s: State<T>)
    requires slots != [] && Reaches(slots, steps, s)
    ensures s.popped <= s.pushed
    ensures |s.pushed| == s.tail && |s.popped| == s.head
    ensures |s.pushed| - |s.popped| <= |slots|
    ensures s.cachedHead <= s.head <= s.cachedTail <= s.tail <= s.head + |slots|
  {
    EveryInterleaving(slots, steps, s);
  }

  function Pushes<T>(steps: seq<Step<T>>): nat {
    if steps == [] then 0 else Pushes(steps[..|steps| - 1]) + if steps[|steps| - 1].PushBegins? then 1 else 0
  }

  /** Every push attempted is published, refused or still in flight. */
  lemma {:induction false} NoPushIsLost<T(!new)>(slots: seq<T>, steps: seq<Step<T>>, s: State<T>)
    requires slots != [] && Reaches(slots, steps, s)
    ensures Pushes(steps) == Attempts(s)
    decreases |steps|
  {
    if steps != [] {
      var front := steps[..|steps| - 1];
      var before: State<T> :| Reaches(slots, front, before) && before.slots != []
                              && Enabled(before, steps[|steps| - 1]) && s == Next(before, steps[|steps| - 1]);
      NoPushIsLost(slots, front, before);
      StepCounts(before, steps[|steps| - 1]);
    }
  }

  /** A push that sees the current head is refused exactly when every slot holds something unread. */
  lemma RefusedExactlyWhenFull<T(!new)>(s: State<T>, seen: nat)
    requires Inv(s) && s.producer.LoadingHead? && Enabled(s, HeadLoaded(seen))
    ensures Next(s, HeadLoaded(seen)).refused == s.refused + 1 <==> s.tail - seen == |s.slots|
    ensures seen == s.head ==> (Next(s, HeadLoaded(seen)).refused > s.refused <==> |s.pushed| - |s.popped| == |s.slots|)
  {
  }

  /** A pop that sees the current tail comes back empty exactly when everything pushed has been popped. */
  lemma EmptyExactlyWhenDrained<T(!new)>(s: State<T>)
    requires Inv(s) && s.consumer.LoadingTail?
    ensures Next(s, TailLoaded(s.tail)).consumer.Waiting? <==> s.popped == s.pushed
  {
  }

  /** A batch that sees the current tail takes all there is, up to its limit. */
  lemma BatchTakesWhatThereIs<T(!new)>(s: State<T>)
    requires Inv(s) && s.consumer.LoadingTailForBatch? && s.consumer.limit > 0
    ensures Next(s, TailLoaded(s.tail)).consumer.Waiting? <==> s.popped == s.pushed
    ensures Next(s, TailLoaded(s.tail)).consumer.Copying? ==>
              var unread := |s.pushed| - |s.popped|;
              Next(s, TailLoaded(s.tail)).consumer.taking == if unread < s.consumer.limit then unread else s.consumer.limit
  {
  }

  // ---- one operation at a time -----------------------------------------------------

  /** A push carried through with nothing in between; `seen` is what a load of the head would return. */
  function PushRun<T(!new)>(s: State<T>, value: T, seen: nat): State<T>
    requires Inv(s) && s.producer.Resting? && s.cachedHead <= seen <= s.head
  {
    var begun := Next(s, PushBegins(value));
    var ready := if begun.producer.LoadingHead? then Next(begun, HeadLoaded(seen)) else begun;
    if ready.producer.Writing? then Next(Next(ready, SlotWritten), TailStored) else ready
  }

  /** The slot written and the tail stored. */
  function Appended<T>(s: State<T>, value: T): State<T>
    requires s.slots != []
  {
    s.(slots := s.slots[s.tail % |s.slots| := value], tail := s.tail + 1, pushed := s.pushed + [value])
  }

  lemma AppendedKeeps<T>(s: State<T>, value: T)
    requires Inv(s) && s.producer.Resting? && !LooksFull(s, s.cachedHead)
    ensures Inv(Appended(s, value))
  {
    var ready := s.(producer := Writing(value));
    PutKeeps(ready, value);
    PublishedKeeps(Put(ready, value).(producer := StoringTail(value)));
    assert Appended(s, value) == Published(Put(ready, value).(producer := StoringTail(value)));
  }

  lemma PushRunIs<T(!new)>(s: State<T>, value: T, seen: nat)
    requires Inv(s) && s.producer.Resting? && s.cachedHead <= seen <= s.head
    ensures PushRun(s, value, seen) ==
            if !LooksFull(s, s.cachedHead) then Appended(s, value)
            else if LooksFull(s, seen) then s.(cachedHead := seen, refused := s.refused + 1)
            else Appended(s.(cachedHead := seen), value)
  {
    var begun := Begun(s, value);
    assert PushRun(s, value, seen) ==
           var ready := if begun.producer.LoadingHead? then Reloaded(begun, seen) else begun;
           if ready.producer.Writing? then Published(Put(ready, value).(producer := StoringTail(value))) else ready;
  }

  /** With the current head in view, a push appends exactly when there is room. */
  lemma PushAppends<T(!new)>(s: State<T>, value: T)
    requires Inv(s) && s.producer.Resting?
    ensures var after := PushRun(s, value, s.head);
            && Inv(after) && after.producer.Resting? && after.popped == s.popped
            && after.pushed == if |s.pushed| - |s.popped| < |s.slots| then s.pushed + [value] else s.pushed
  {
    PushRunIs(s, value, s.head);
    if !LooksFull(s, s.head) {
      AppendedKeeps(s.(cachedHead := s.head), value);
    }
    if !LooksFull(s, s.cachedHead) {
      AppendedKeeps(s, value);
    }
  }

  class SpscRing<T(!new)> {
    const slots: array<T>
    var tail: nat
    var head: nat
    var cachedHead: nat
    var cachedTail: nat
    var refused: nat
    ghost var pushed: seq<T>
    ghost var popped: seq<T>

    ghost function View(): State<T>
      reads this, slots
    {
      State(slots[..], tail, head, cachedHead, cachedTail, refused, Resting, Waiting, pushed, popped)
    }

    ghost predicate Valid()
      reads this, slots
    {
      Inv(View())
    }

    constructor (capacity: nat, blank: T)
      requires capacity >= 2
      ensures Valid() && fresh(slots) && slots.Length == capacity
      ensures View() == Fresh(slots[..])
    {
      slots := new T[capacity](_ => blank);
      tail, head, cachedHead, cachedTail, refused := 0, 0, 0, 0, 0;
      pushed, popped := [], [];
    }

    method Push(value: T, seenHead: nat) returns (ok: bool)
      requires Valid() && cachedHead <= seenHead <= head
      modifies this`tail, this`cachedHead, this`refused, this`pushed, slots
      ensures Valid() && View() == PushRun(old(View()), value, seenHead)
      ensures ok <==> pushed == old(pushed) + [value]
      ensures !ok ==> pushed == old(pushed) && tail - seenHead == slots.Length
    {
      PushRunIs(View(), value, seenHead);
      var n := slots.Length;
      if tail - cachedHead >= n {
        cachedHead := seenHead;
        if tail - cachedHead >= n {
          refused := refused + 1;
          return false;
        }
      }
      ghost var whole := Appended(View(), value);
      AppendedKeeps(View(), value);
      slots[tail % n] := value;
      tail := tail + 1;
      pushed := pushed + [value];
      assert View() == whole;
      return true;
    }

    /** `before` comes back where the source leaves its out-parameter untouched. */
    method Pop(before: T, seenTail: nat) returns (ok: bool, into: T)
      requires Valid() && cachedTail <= seenTail <= tail
      modifies this`head, this`cachedTail, this`popped
      ensures Valid()
      ensures ok ==> popped == old(popped) + [into]
      ensures !ok ==> popped == old(popped) && into == before && |popped| == seenTail
    {
      if head >= cachedTail {
        cachedTail := seenTail;
        if head >= cachedTail { return false, before; }
      }
      into := slots[head % slots.Length];
      assert into == pushed[head];
      head := head + 1;
      popped := popped + [into];
      return true, into;
    }

    method CopyOut(out: array<T>, taking: nat)
      requires Valid() && head + taking <= tail && taking <= out.Length && out != slots
      modifies out
      ensures out[..taking] == pushed[head..head + taking]
      ensures out[taking..] == old(out[taking..])
    {
      for i := 0 to taking
        invariant out[..i] == pushed[head..head + i]
        invariant out[taking..] == old(out[taking..])
      {
        out[i] := slots[(head + i) % slots.Length];
        assert out[i] == pushed[head + i];
      }
    }

    method PopBatch(out: array<T>, limit: nat, seenTail: nat) returns (taking: nat)
      requires Valid() && cachedTail <= seenTail <= tail && limit <= out.Length && out != slots
      modifies this`head, this`cachedTail, this`popped, out
      ensures Valid()
      ensures taking == if seenTail - old(head) < limit then seenTail - old(head) else limit
      ensures popped == old(popped) + out[..taking]
      ensures out[taking..] == old(out[taking..])
    {
      cachedTail := seenTail;
      var available := cachedTail - head;
      taking := if available < limit then available else limit;
      CopyOut(out, taking);
      if taking > 0 {
        head := head + taking;
        popped := popped + out[..taking];
      }
    }
  }
}
