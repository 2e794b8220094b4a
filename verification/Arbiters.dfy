/** Merging redundant lines into one stream against a single watermark, and noticing when the lines
    disagree. Line statistics and liveness are not modelled. */
module Arbiters {
  import opened Errors
  import opened Ranges
  import opened GapSets

  const DIGEST_HISTORY: nat := 64

  datatype Arbitration = Deliver | Duplicate | Partial

  datatype Merged = Merged(outcome: Arbitration, deliver: Range)

  datatype Digest = Digest(range: Range, value: nat)

  /** The position of the merged stream, and the packets still remembered, oldest first. */
  datatype Position = Position(watermark: nat, recent: seq<Digest>)

  const STREAM_START := Position(0, [])

  /** What a packet has at or above the watermark. */
  function Novel(watermark: nat, arrived: Range): Range {
    if arrived.end <= watermark then EMPTY
    else Range(if arrived.first > watermark then arrived.first else watermark, arrived.end)
  }

  lemma NovelExact(watermark: nat, arrived: Range)
    ensures Span(Novel(watermark, arrived)) == AtLeast(Span(arrived), watermark)
  {}

  /** Two packets claiming the same range with different content. */
  ghost predicate Conflicts(recent: seq<Digest>, arrived: Range, digest: nat) {
    exists past :: past in recent && past.range == arrived && past.value != digest
  }

  function Noted(recent: seq<Digest>, d: Digest): seq<Digest> {
    if d.range.IsEmpty() then recent
    else if |recent| < DIGEST_HISTORY then recent + [d]
    else recent[1..] + [d]
  }

  ghost function Offered(detect: bool, a: Position, arrived: Range, digest: nat): (Position, Result<Merged>) {
    if detect && Conflicts(a.recent, arrived, digest) then (a, Err(LinesDiverged))
    else
      var recent := if detect then Noted(a.recent, Digest(arrived, digest)) else a.recent;
      var novel := Novel(a.watermark, arrived);
      if arrived.IsEmpty() || novel.IsEmpty() then (Position(a.watermark, recent), Ok(Merged(Duplicate, EMPTY)))
      else (Position(novel.end, recent), Ok(Merged(if novel == arrived then Deliver else Partial, novel)))
  }

  function Adopted(a: Position, sequence: nat): Position {
    if sequence > a.watermark then a.(watermark := sequence) else a
  }

  /** First copy wins: what is delivered is exactly the unseen part, all of it at or above the old
      watermark and below the new one, so no number is ever delivered by two offers. */
  lemma FirstCopyWins(detect: bool, a: Position, arrived: Range, digest: nat)
    requires Offered(detect, a, arrived, digest).1.Ok?
    ensures var (after, result) := Offered(detect, a, arrived, digest);
            && Span(result.value.deliver) == AtLeast(Span(arrived), a.watermark)
            && Span(result.value.deliver) <= Span(Range(a.watermark, after.watermark))
            && after.watermark == (if !arrived.IsEmpty() && arrived.end > a.watermark then arrived.end else a.watermark)
            && (result.value.outcome == Duplicate <==> result.value.deliver.IsEmpty())
            && (result.value.outcome == Deliver <==> result.value.deliver == arrived && !arrived.IsEmpty())
            && (result.value.deliver.IsEmpty() ==> result.value.deliver == EMPTY)
  {
    NovelExact(a.watermark, arrived);
    PredicatesMeanSets(arrived, EMPTY);
    PredicatesMeanSets(EMPTY, EMPTY);
  }

  // ---- divergence over whole runs ---------------------------------------------

  datatype Act = Offer(arrived: Range, digest: nat) | Adopt(sequence: nat) | Reset

  ghost function Acted(a: Position, act: Act): Position {
    match act
    case Offer(arrived, digest) => Offered(true, a, arrived, digest).0
    case Adopt(sequence) => Adopted(a, sequence)
    case Reset => STREAM_START
  }

  /** The arbiter over any run of offers, adoptions and resets, with divergence detection on. */
  ghost function Run(acts: seq<Act>): Position {
    if acts == [] then STREAM_START else Acted(Run(acts[..|acts| - 1]), acts[|acts| - 1])
  }

  /** The offers with messages accepted since the last reset, in order. */
  ghost function Accepted(acts: seq<Act>): seq<Digest> {
    if acts == [] then []
    else
      var front := acts[..|acts| - 1];
      match acts[|acts| - 1]
      case Offer(arrived, digest) =>
        if arrived.IsEmpty() || Conflicts(Run(front).recent, arrived, digest) then Accepted(front)
        else Accepted(front) + [Digest(arrived, digest)]
      case Adopt(_) => Accepted(front)
      case Reset => []
  }

  /** The last offers of a run that carried messages, at most as many as are remembered. */
  function Remembered(offers: seq<Digest>): seq<Digest> {
    if offers == [] then [] else Noted(Remembered(offers[..|offers| - 1]), offers[|offers| - 1])
  }

  /** After any run the arbiter remembers the last of the offers accepted since the last reset. */
  lemma {:induction false} RunRemembers(acts: seq<Act>)
    ensures Run(acts).recent == Remembered(Accepted(acts))
  {
    if acts != [] {
      var front, last := acts[..|acts| - 1], acts[|acts| - 1];
      RunRemembers(front);
      if last.Offer? && !last.arrived.IsEmpty() && !Conflicts(Run(front).recent, last.arrived, last.digest) {
        var more := Accepted(front) + [Digest(last.arrived, last.digest)];
        assert more[..|Accepted(front)|] == Accepted(front);
      }
    }
  }

  lemma {:induction false} RememberedAreOffers(offers: seq<Digest>)
    ensures forall d :: d in Remembered(offers) ==> d in offers
  {
    if offers != [] {
      var body, last := offers[..|offers| - 1], offers[|offers| - 1];
      RememberedAreOffers(body);
      forall d | d in Remembered(offers) ensures d in offers {
        assert d == last || d in Remembered(body);
      }
    }
  }

  /** Every offer of the run carries what the feed carries. */
  ghost predicate Agreeing(acts: seq<Act>, content: Range -> nat) {
    forall act :: act in acts && act.Offer? ==> act.digest == content(act.arrived)
  }

  lemma {:induction false} AcceptedAgree(acts: seq<Act>, content: Range -> nat)
    requires Agreeing(acts, content)
    ensures forall d :: d in Accepted(acts) ==> d.value == content(d.range)
  {
    if acts != [] {
      var front := acts[..|acts| - 1];
      assert forall act :: act in front ==> act in acts;
      AcceptedAgree(front, content);
    }
  }

  /** Lines that carry the same content for the same range are never refused, in any interleaving. */
  lemma AgreeingLinesNeverDiverge(acts: seq<Act>, content: Range -> nat, next: Range)
    requires Agreeing(acts, content)
    ensures Offered(true, Run(acts), next, content(next)).1.Ok?
  {
    RunRemembers(acts);
    RememberedAreOffers(Accepted(acts));
    AcceptedAgree(acts, content);
  }

  /** An offer among the last 64 with messages accepted since the reset refuses any other content for its range. */
  lemma DivergenceIsCaught(acts: seq<Act>, at: nat, digest: nat)
    requires at < |Accepted(acts)| && |Accepted(acts)| - at <= DIGEST_HISTORY
    requires Accepted(acts)[at].value != digest
    ensures Offered(true, Run(acts), Accepted(acts)[at].range, digest).1 == Err(LinesDiverged)
  {
    RunRemembers(acts);
    AcceptedCarryMessages(acts);
    LastOnesAreRemembered(Accepted(acts), at);
  }

  lemma {:induction false} AcceptedCarryMessages(acts: seq<Act>)
    ensures forall d :: d in Accepted(acts) ==> !d.range.IsEmpty()
  {
    if acts != [] {
      AcceptedCarryMessages(acts[..|acts| - 1]);
    }
  }

  lemma {:induction false} LastOnesAreRemembered(offers: seq<Digest>, at: nat)
    requires at < |offers| && |offers| - at <= DIGEST_HISTORY && !offers[at].range.IsEmpty()
    ensures |Remembered(offers)| <= DIGEST_HISTORY
    ensures exists k :: |Remembered(offers)| - (|offers| - at) <= k < |Remembered(offers)| && 0 <= k && Remembered(offers)[k] == offers[at]
  {
    RememberedBounded(offers);
    var body := offers[..|offers| - 1];
    RememberedBounded(body);
    if at == |offers| - 1 {
      assert Remembered(offers)[|Remembered(offers)| - 1] == offers[at];
    } else {
      LastOnesAreRemembered(body, at);
      var k :| |Remembered(body)| - (|body| - at) <= k < |Remembered(body)| && 0 <= k && Remembered(body)[k] == body[at];
      var last := offers[|offers| - 1];
      var k' := if last.range.IsEmpty() || |Remembered(body)| < DIGEST_HISTORY then k else k - 1;
      assert Remembered(offers)[k'] == offers[at];
    }
  }

  lemma {:induction false} RememberedBounded(offers: seq<Digest>)
    ensures |Remembered(offers)| <= DIGEST_HISTORY
  {
    if offers != [] {
      RememberedBounded(offers[..|offers| - 1]);
    }
  }

  // ---- the component ----------------------------------------------------------

  /** A ring of slots read from its oldest entry. */
  function RingView(slots: seq<Digest>, next: nat, count: nat): seq<Digest>
    requires next < |slots| && count <= |slots| && (count < |slots| ==> next == count)
  {
    if count < |slots| then slots[..count] else slots[next..] + slots[..next]
  }

  lemma RingWrite(slots: seq<Digest>, next: nat, count: nat, d: Digest)
    requires |slots| == DIGEST_HISTORY && next < |slots| && count <= |slots| && (count < |slots| ==> next == count)
    requires !d.range.IsEmpty()
    ensures RingView(slots[next := d], (next + 1) % DIGEST_HISTORY, if count < DIGEST_HISTORY then count + 1 else count) ==
            Noted(RingView(slots, next, count), d)
  {
    if count < |slots| {
      RingGrows(slots, count, d);
    } else {
      FullRingWrite(slots, next, d);
    }
  }

  lemma FullRingWrite(slots: seq<Digest>, next: nat, d: Digest)
    requires |slots| == DIGEST_HISTORY && next < |slots|
    ensures RingView(slots[next := d], (next + 1) % DIGEST_HISTORY, DIGEST_HISTORY) ==
            RingView(slots, next, DIGEST_HISTORY)[1..] + [d]
  {
    if next + 1 == |slots| {
      RingWraps(slots, next, d);
    } else {
      RingTurns(slots, next, d);
    }
  }

  lemma RingWraps(slots: seq<Digest>, next: nat, d: Digest)
    requires |slots| == DIGEST_HISTORY && next + 1 == |slots|
    ensures RingView(slots[next := d], 0, DIGEST_HISTORY) == RingView(slots, next, DIGEST_HISTORY)[1..] + [d]
  {
    var after := slots[next := d];
    assert slots[next..] + slots[..next] == [slots[next]] + slots[..next];
    assert after == slots[..next] + [d];
    assert after[0..] + after[..0] == after;
  }

  lemma RingGrows(slots: seq<Digest>, count: nat, d: Digest)
    requires |slots| == DIGEST_HISTORY && count < |slots|
    ensures RingView(slots[count := d], (count + 1) % DIGEST_HISTORY, count + 1) == slots[..count] + [d]
  {
    var after := slots[count := d];
    assert after[..count + 1] == slots[..count] + [d];
    if count + 1 == |slots| {
      assert after[0..] + after[..0] == after[..count + 1];
    }
  }

  lemma RingTurns(slots: seq<Digest>, next: nat, d: Digest)
    requires |slots| == DIGEST_HISTORY && next + 1 < |slots|
    ensures slots[next := d][next + 1..] + slots[next := d][..next + 1] == (slots[next..] + slots[..next])[1..] + [d]
  {
    var after := slots[next := d];
    assert after[next + 1..] == slots[next + 1..] == slots[next..][1..];
    assert after[..next + 1] == slots[..next] + [d];
    assert (slots[next..] + slots[..next])[1..] == slots[next..][1..] + slots[..next];
  }

  lemma RingMembers(slots: seq<Digest>, next: nat, count: nat)
    requires next < |slots| && count <= |slots| && (count < |slots| ==> next == count)
    ensures forall d :: d in RingView(slots, next, count) <==> d in slots[..count]
  {
    if count == |slots| {
      assert slots == slots[..next] + slots[next..];
      assert slots[..count] == slots;
    }
  }

  const NO_DIGEST := Digest(EMPTY, 0)

  class Arbiter {
    const detect: bool
    const digests: array<Digest>
    var watermark: nat
    var next: nat
    var count: nat

    ghost predicate Valid()
      reads this, digests
    {
      && digests.Length == DIGEST_HISTORY
      && count <= DIGEST_HISTORY
      && next < DIGEST_HISTORY
      && (count < DIGEST_HISTORY ==> next == count)
    }

    /** The ring read from its oldest entry. */
    ghost function Recent(): seq<Digest>
      reads this, digests
      requires Valid()
    {
      RingView(digests[..], next, count)
    }

    ghost function Model(): Position
      reads this, digests
      requires Valid()
    {
      Position(watermark, Recent())
    }

    constructor (detect: bool)
      ensures Valid() && fresh(digests)
      ensures this.detect == detect && Model() == STREAM_START
    {
      this.detect := detect;
      digests := new Digest[DIGEST_HISTORY](_ => NO_DIGEST);
      watermark, next, count := 0, 0, 0;
    }

    method Offer(arrived: Range, digest: nat) returns (result: Result<Merged>)
      requires Valid()
      modifies this, digests
      ensures Valid()
      ensures (Model(), result) == Offered(detect, old(Model()), arrived, digest)
    {
      if detect {
        var agreed := CheckAgreement(arrived, digest);
        if !agreed {
          return Err(LinesDiverged);
        }
        Remember(arrived, digest);
      }
      if arrived.IsEmpty() {
        return Ok(Merged(Duplicate, EMPTY));
      }
      var novel := Novel(watermark, arrived);
      if novel.IsEmpty() {
        return Ok(Merged(Duplicate, EMPTY));
      }
      if novel.end > watermark {
        watermark := novel.end;
      }
      return Ok(Merged(if novel == arrived then Deliver else Partial, novel));
    }

    method CheckAgreement(arrived: Range, digest: nat) returns (agreed: bool)
      requires Valid()
      ensures agreed <==> !Conflicts(Recent(), arrived, digest)
    {
      RingMembers(digests[..], next, count);
      ghost var stored := digests[..count];
      assert digests[..][..count] == stored;
      for i := 0 to count
        invariant !Conflicts(stored[..i], arrived, digest)
      {
        if digests[i].range == arrived && digests[i].value != digest {
          assert stored[i] in stored;
          return false;
        }
        assert stored[..i + 1] == stored[..i] + [stored[i]];
      }
      assert stored[..count] == stored;
      return true;
    }

    method Remember(arrived: Range, digest: nat)
      requires Valid()
      modifies this`next, this`count, digests
      ensures Valid()
      ensures Recent() == Noted(old(Recent()), Digest(arrived, digest))
    {
      if arrived.IsEmpty() {
        return;
      }
      RingWrite(digests[..], next, count, Digest(arrived, digest));
      digests[next] := Digest(arrived, digest);
      next := (next + 1) % DIGEST_HISTORY;
      if count < DIGEST_HISTORY {
        count := count + 1;
      }
    }

    method Adopt(sequence: nat)
      requires Valid()
      modifies this`watermark
      ensures Valid() && Model() == Adopted(old(Model()), sequence)
    {
      if sequence > watermark {
        watermark := sequence;
      }
    }

    method ResetStream()
      requires Valid()
      modifies this
      ensures Valid() && Model() == STREAM_START
    {
      watermark, next, count := 0, 0, 0;
    }
  }
}
