/** Live messages held while a snapshot is fetched: a byte arena and an index over it, which together
    represent a contiguous list of messages. */
module ReplayBuffers {
  import opened Errors
  import opened Ranges

  type Bytes = seq<bv8>

  /** The abstract value: consecutive messages starting at `first` (zero when nothing is held). */
  datatype Buffer = Buffer(first: nat, messages: seq<Bytes>) {
    function End(): nat { first + |messages| }

    function Buffered(): Range {
      if messages == [] then EMPTY else Range(first, End())
    }
  }

  const NOTHING_HELD := Buffer(0, [])

  function Size(messages: seq<Bytes>): nat {
    if messages == [] then 0 else Size(messages[..|messages| - 1]) + |messages[|messages| - 1]|
  }

  datatype Limits = Limits(bytes: nat, messages: nat)

  /** A message below the end is ignored, one above it or one there is no room for is refused. */
  function Appended(limits: Limits, b: Buffer, sequence: nat, message: Bytes): (Buffer, Result<()>) {
    if b.messages != [] && sequence < b.End() then (b, Ok(()))
    else if b.messages != [] && sequence > b.End() then (b, Err(SequenceGap))
    else if |b.messages| >= limits.messages || Size(b.messages) + |message| > limits.bytes then (b, Err(RecoveryBufferOverflow))
    else (Buffer(if b.messages == [] then sequence else b.first, b.messages + [message]), Ok(()))
  }

  predicate Holds(b: Buffer, n: nat, message: Bytes) {
    b.first <= n < b.End() && b.messages[n - b.first] == message
  }

  /** A number below the end is taken for granted and one behind the end is a gap; the next one is held if there
      is room. What was held stays as it was, and nothing else is held. */
  lemma AppendAnswers(limits: Limits, b: Buffer, sequence: nat, message: Bytes)
    ensures var (after, result) := Appended(limits, b, sequence, message);
            var next := b.messages == [] || sequence == b.End();
            var room := |b.messages| < limits.messages && Size(b.messages) + |message| <= limits.bytes;
            && (result.Ok? <==> (next && room) || (!next && sequence < b.End()))
            && (result == Err(SequenceGap) <==> !next && sequence > b.End())
            && (result == Err(RecoveryBufferOverflow) <==> next && !room)
            && (!(next && room) ==> after == b)
            && (forall n, held :: Holds(b, n, held) ==> Holds(after, n, held))
            && (next && room ==> Holds(after, sequence, message) && |after.messages| == |b.messages| + 1 && after.End() == sequence + 1)
  {}

  function DroppedBelow(b: Buffer, sequence: nat): Buffer {
    if b.messages == [] || sequence <= b.first then b
    else if sequence >= b.End() then NOTHING_HELD
    else Buffer(sequence, b.messages[sequence - b.first..])
  }

  /** What lies at or above a number is kept, message for message, and nothing else. */
  lemma DropAnswers(b: Buffer, sequence: nat, n: nat, message: Bytes)
    ensures Holds(DroppedBelow(b, sequence), n, message) <==> Holds(b, n, message) && n >= sequence
  {}

  datatype ByteSpan = ByteSpan(offset: nat, length: nat) {
    function End(): nat { offset + length }
  }

  /** The spans lie end to end from zero up to `used`. */
  predicate Laid(index: seq<ByteSpan>, used: nat) {
    if index == [] then used == 0
    else
      var last := index[|index| - 1];
      last.End() == used && Laid(index[..|index| - 1], last.offset)
  }

  /** The messages the spans cut out of the arena. */
  function Cut(arena: Bytes, index: seq<ByteSpan>, used: nat): (messages: seq<Bytes>)
    requires Laid(index, used) && used <= |arena|
    ensures |messages| == |index|
  {
    if index == [] then []
    else
      var last := index[|index| - 1];
      Cut(arena, index[..|index| - 1], last.offset) + [arena[last.offset..last.End()]]
  }

  lemma {:induction false} LaidAt(index: seq<ByteSpan>, used: nat, i: nat)
    requires Laid(index, used) && i < |index|
    ensures Laid(index[..i], index[i].offset)
    ensures index[i].End() <= used
  {
    if i < |index| - 1 {
      var body := index[..|index| - 1];
      LaidAt(body, index[|index| - 1].offset, i);
      assert body[..i] == index[..i];
    }
  }

  lemma {:induction false} CutSize(arena: Bytes, index: seq<ByteSpan>, used: nat)
    requires Laid(index, used) && used <= |arena|
    ensures Size(Cut(arena, index, used)) == used
  {
    if index != [] {
      CutSize(arena, index[..|index| - 1], index[|index| - 1].offset);
    }
  }

  /** What the index cuts out depends only on the used part of the arena. */
  lemma {:induction false} CutDependsOnUsed(arena: Bytes, other: Bytes, index: seq<ByteSpan>, used: nat)
    requires Laid(index, used) && used <= |arena| && used <= |other| && arena[..used] == other[..used]
    ensures Cut(arena, index, used) == Cut(other, index, used)
  {
    if index != [] {
      var last := index[|index| - 1];
      assert arena[..last.offset] == arena[..used][..last.offset] == other[..used][..last.offset] == other[..last.offset];
      CutDependsOnUsed(arena, other, index[..|index| - 1], last.offset);
      assert arena[last.offset..used] == arena[..used][last.offset..] == other[..used][last.offset..] == other[last.offset..used];
    }
  }

  /** One more message, behind the others. */
  lemma CutAppend(arena: Bytes, after: Bytes, index: seq<ByteSpan>, used: nat, message: Bytes)
    requires Laid(index, used) && used <= |arena| && used + |message| <= |after|
    requires after[..used] == arena[..used] && after[used..used + |message|] == message
    ensures Laid(index + [ByteSpan(used, |message|)], used + |message|)
    ensures Cut(after, index + [ByteSpan(used, |message|)], used + |message|) == Cut(arena, index, used) + [message]
  {
    var longer := index + [ByteSpan(used, |message|)];
    assert longer[..|longer| - 1] == index;
    CutDependsOnUsed(after, arena, index, used);
  }

  lemma {:induction false} CutAt(arena: Bytes, index: seq<ByteSpan>, used: nat, i: nat)
    requires Laid(index, used) && used <= |arena| && i < |index|
    ensures index[i].End() <= used
    ensures Cut(arena, index, used)[i] == arena[index[i].offset..index[i].End()]
  {
    LaidAt(index, used, i);
    if i < |index| - 1 {
      CutAt(arena, index[..|index| - 1], index[|index| - 1].offset, i);
    }
  }

  /** The index after everything before span `from` has been compacted away. */
  function Shifted(index: seq<ByteSpan>, from: nat): (s: seq<ByteSpan>)
    requires from < |index|
    requires forall i :: from <= i < |index| ==> index[from].offset <= index[i].offset
    ensures |s| == |index| - from
    ensures forall i :: 0 <= i < |s| ==> s[i] == ByteSpan(index[from + i].offset - index[from].offset, index[from + i].length)
  {
    seq(|index| - from, i requires 0 <= i < |index| - from => ByteSpan(index[from + i].offset - index[from].offset, index[from + i].length))
  }

  lemma {:induction false} OffsetsGrow(index: seq<ByteSpan>, used: nat, from: nat, i: nat)
    requires Laid(index, used) && from <= i < |index|
    ensures index[from].offset <= index[i].offset
  {
    LaidAt(index, used, i);
    if from < i {
      LaidAt(index[..i], index[i].offset, from);
    }
  }

  lemma SliceOfSlice(s: Bytes, a: nat, b: nat, c: nat, d: nat)
    requires a <= b <= |s| && c <= d <= b - a
    ensures s[a..b][c..d] == s[a + c..a + d]
  {
    assert forall i :: 0 <= i < d - c ==> s[a..b][c..d][i] == s[a + c..a + d][i];
  }

  /** One message after the slide. */
  lemma SlidMessage(arena: Bytes, after: Bytes, base: nat, used: nat, span: ByteSpan)
    requires base <= span.offset && span.End() <= used <= |arena| && used - base <= |after|
    requires after[..used - base] == arena[base..used]
    ensures after[span.offset - base..span.End() - base] == arena[span.offset..span.End()]
  {
    SliceOfSlice(arena, base, used, span.offset - base, span.End() - base);
    SliceOfSlice(after, 0, used - base, span.offset - base, span.End() - base);
    assert after[0..used - base] == after[..used - base];
  }

  lemma Adjacent(index: seq<ByteSpan>, used: nat, i: nat)
    requires Laid(index, used) && 0 < i < |index|
    ensures index[i - 1].End() == index[i].offset
  {
    LaidAt(index, used, i);
  }

  lemma {:induction false} LaidFromAdjacent(index: seq<ByteSpan>)
    requires index != [] && index[0].offset == 0
    requires forall i :: 0 < i < |index| ==> index[i - 1].End() == index[i].offset
    ensures Laid(index, index[|index| - 1].End())
  {
    if |index| > 1 {
      LaidFromAdjacent(index[..|index| - 1]);
    }
  }

  lemma ShiftedLaid(index: seq<ByteSpan>, used: nat, from: nat)
    requires Laid(index, used) && from < |index|
    requires forall i :: from <= i < |index| ==> index[from].offset <= index[i].offset
    ensures index[from].offset <= used
    ensures Laid(Shifted(index, from), used - index[from].offset)
  {
    var shifted := Shifted(index, from);
    forall i | 0 < i < |shifted| ensures shifted[i - 1].End() == shifted[i].offset {
      Adjacent(index, used, from + i);
    }
    LaidFromAdjacent(shifted);
  }

  lemma TailIsLaid(index: seq<ByteSpan>, used: nat, from: nat)
    requires Laid(index, used) && from < |index|
    ensures forall i :: from <= i < |index| ==> index[from].offset <= index[i].offset
    ensures index[from].offset <= used && Laid(Shifted(index, from), used - index[from].offset)
  {
    forall i | from <= i < |index| ensures index[from].offset <= index[i].offset {
      OffsetsGrow(index, used, from, i);
    }
    ShiftedLaid(index, used, from);
  }

  /** Sliding the tail of the arena down and rebasing the spans keeps every remaining message. */
  lemma CompactionKeeps(arena: Bytes, after: Bytes, index: seq<ByteSpan>, used: nat, from: nat)
    requires Laid(index, used) && used <= |arena| && from < |index|
    requires forall i :: from <= i < |index| ==> index[from].offset <= index[i].offset
    requires index[from].offset <= used && used - index[from].offset <= |after|
    requires Laid(Shifted(index, from), used - index[from].offset)
    requires after[..used - index[from].offset] == arena[index[from].offset..used]
    ensures Cut(after, Shifted(index, from), used - index[from].offset) == Cut(arena, index, used)[from..]
  {
    var kept := Cut(after, Shifted(index, from), used - index[from].offset);
    forall i | 0 <= i < |kept| ensures kept[i] == Cut(arena, index, used)[from + i] {
      KeptMessage(arena, after, index, used, from, i);
    }
  }

  lemma KeptMessage(arena: Bytes, after: Bytes, index: seq<ByteSpan>, used: nat, from: nat, i: nat)
    requires Laid(index, used) && used <= |arena| && from + i < |index|
    requires forall k :: from <= k < |index| ==> index[from].offset <= index[k].offset
    requires index[from].offset <= used && used - index[from].offset <= |after|
    requires Laid(Shifted(index, from), used - index[from].offset)
    requires after[..used - index[from].offset] == arena[index[from].offset..used]
    ensures Cut(after, Shifted(index, from), used - index[from].offset)[i] == Cut(arena, index, used)[from + i]
  {
    var base, span := index[from].offset, index[from + i];
    LaidAt(index, used, from + i);
    CutAt(arena, index, used, from + i);
    CutAt(after, Shifted(index, from), used - base, i);
    SlidMessage(arena, after, base, used, span);
    assert Shifted(index, from)[i].offset == span.offset - base;
    assert Shifted(index, from)[i].End() == span.End() - base;
  }

  class ReplayBuffer {
    const arena: array<bv8>
    const index: array<ByteSpan>
    var count: nat
    var used: nat
    var first: nat

    ghost predicate Valid()
      reads this, arena, index
    {
      && arena != (index as object)
      && count <= index.Length
      && used <= arena.Length
      && Laid(index[..count], used)
      && (count == 0 ==> first == 0)
    }

    ghost function Model(): Buffer
      reads this, arena, index
      requires Valid()
    {
      Buffer(first, Cut(arena[..], index[..count], used))
    }

    function Capacity(): Limits {
      Limits(arena.Length, index.Length)
    }

    constructor (bytes: nat, messages: nat)
      requires bytes > 0 && messages > 0
      ensures Valid() && fresh(arena) && fresh(index)
      ensures Model() == NOTHING_HELD && Capacity() == Limits(bytes, messages)
    {
      arena := new bv8[bytes](_ => 0);
      index := new ByteSpan[messages](_ => ByteSpan(0, 0));
      count, used, first := 0, 0, 0;
    }

    method Buffered() returns (held: Range)
      requires Valid()
      ensures held == Model().Buffered()
    {
      held := if count == 0 then EMPTY else Range(first, first + count);
    }

    method Append(sequence: nat, message: Bytes) returns (result: Result<()>)
      requires Valid()
      modifies this, arena, index
      ensures Valid()
      ensures (Model(), result) == Appended(Capacity(), old(Model()), sequence, message)
    {
      CutSize(arena[..], index[..count], used);
      if count != 0 {
        var expected := first + count;
        if sequence < expected {
          return Ok(());
        }
        if sequence > expected {
          return Err(SequenceGap);
        }
      }
      if count >= index.Length || used + |message| > arena.Length {
        return Err(RecoveryBufferOverflow);
      }
      if count == 0 {
        first := sequence;
      }
      Write(message);
      return Ok(());
    }

    /** Copies one message behind the others and indexes it. */
    method Write(message: Bytes)
      requires arena != (index as object) && count < index.Length && used + |message| <= arena.Length && Laid(index[..count], used)
      modifies this`count, this`used, arena, index
      ensures count == old(count) + 1 && used == old(used) + |message| && count <= index.Length && used <= arena.Length
      ensures Laid(index[..count], used)
      ensures Cut(arena[..], index[..count], used) == old(Cut(arena[..], index[..count], used)) + [message]
    {
      ghost var before, spans := arena[..], index[..count];
      CopyIn(message);
      ghost var after := arena[..];
      assert after[..used] == before[..used];
      CutAppend(before, after, spans, used, message);
      AddSpan(ByteSpan(used, |message|));
      used := used + |message|;
      assert arena[..] == after;
    }

    method AddSpan(span: ByteSpan)
      requires count < index.Length
      modifies this`count, index
      ensures count == old(count) + 1
      ensures index[..count] == old(index[..count]) + [span]
    {
      index[count] := span;
      count := count + 1;
    }

    method CopyIn(message: Bytes)
      requires used + |message| <= arena.Length
      modifies arena
      ensures arena[..used] == old(arena[..used])
      ensures arena[used..used + |message|] == message
    {
      for i := 0 to |message|
        modifies arena
        invariant forall j :: 0 <= j < used ==> arena[j] == old(arena[j])
        invariant forall j :: 0 <= j < i ==> arena[used + j] == message[j]
      {
        arena[used + i] := message[i];
      }
    }

    /** Discards the messages below `sequence`. */
    method DropBelow(sequence: nat) returns (dropped: nat)
      requires Valid()
      modifies this, arena, index
      ensures Valid()
      ensures Model() == DroppedBelow(old(Model()), sequence)
      ensures dropped == |old(Model()).messages| - |Model().messages|
    {
      if count == 0 || sequence <= first {
        return 0;
      }
      if sequence >= first + count {
        dropped := count;
        Clear();
        return;
      }
      dropped := sequence - first;
      Compact(dropped);
      first := sequence;
    }

    /** Slides everything from message `from` on down to the start of the arena. */
    method Compact(from: nat)
      requires Valid() && from < count
      modifies this`count, this`used, arena, index
      ensures count == old(count) - from && count <= index.Length && used <= arena.Length && Laid(index[..count], used)
      ensures Cut(arena[..], index[..count], used) == old(Cut(arena[..], index[..count], used))[from..]
    {
      ghost var before, spans := arena[..], index[..count];
      TailIsLaid(spans, used, from);
      var offset := index[from].offset;
      var remaining := used - offset;
      SlideArena(offset, remaining);
      assert arena[..remaining] == before[offset..used];
      Rebase(from, offset);
      CompactionKeeps(before, arena[..], spans, used, from);
      count := count - from;
      used := remaining;
      assert index[..count] == Shifted(spans, from);
    }

    /** The overlapping move: each byte is read before anything is written over it. */
    method SlideArena(offset: nat, remaining: nat)
      requires offset + remaining <= arena.Length
      modifies arena
      ensures arena[..remaining] == old(arena[offset..offset + remaining])
    {
      ghost var before := arena[..];
      for i := 0 to remaining
        modifies arena
        invariant forall j :: 0 <= j < i ==> arena[j] == before[offset + j]
        invariant forall j :: offset + i <= j < arena.Length ==> arena[j] == before[j]
      {
        arena[i] := arena[offset + i];
      }
    }

    method Rebase(from: nat, offset: nat)
      requires from < count <= index.Length && offset == index[from].offset
      requires forall i :: from <= i < count ==> offset <= index[i].offset
      modifies index
      ensures index[..count - from] == Shifted(old(index[..count]), from)
    {
      ghost var spans := index[..count];
      for i := from to count
        modifies index
        invariant forall j :: from <= j < i ==> index[j - from] == ByteSpan(spans[j].offset - offset, spans[j].length)
        invariant forall j :: i <= j < count ==> index[j] == spans[j]
      {
        index[i - from] := ByteSpan(index[i].offset - offset, index[i].length);
      }
      assert forall k :: 0 <= k < count - from ==> index[k] == Shifted(spans, from)[k] by {
        forall k | 0 <= k < count - from ensures index[k] == Shifted(spans, from)[k] {
          assert index[(from + k) - from] == ByteSpan(spans[from + k].offset - offset, spans[from + k].length);
        }
      }
    }

    /** What the handler is given, call by call: every message with its sequence number. */
    method Replay() returns (calls: seq<(nat, Bytes)>)
      requires Valid()
      ensures |calls| == |Model().messages|
      ensures forall i :: 0 <= i < |calls| ==> calls[i] == (Model().first + i, Model().messages[i])
    {
      calls := [];
      for i := 0 to count
        invariant |calls| == i
        invariant forall k :: 0 <= k < i ==> calls[k] == (first + k, Model().messages[k])
      {
        CutAt(arena[..], index[..count], used, i);
        calls := calls + [(first + i, arena[index[i].offset..index[i].End()])];
      }
    }

    /** One held message by sequence number. */
    method At(sequence: nat) returns (message: Result<Bytes>)
      requires Valid()
      ensures message == if Model().Buffered().Contains(sequence) then Ok(Model().messages[sequence - first])
                         else Err(InvalidArgument)
    {
      if count == 0 || !(first <= sequence < first + count) {
        return Err(InvalidArgument);
      }
      var i := sequence - first;
      CutAt(arena[..], index[..count], used, i);
      assert index[i].End() <= arena.Length;
      message := Ok(arena[index[i].offset..index[i].End()]);
    }

    method Clear()
      requires arena != (index as object)
      modifies this
      ensures Valid() && Model() == NOTHING_HELD
    {
      count, used, first := 0, 0, 0;
    }
  }
}
