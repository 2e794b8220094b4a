/** When a missing message is asked for, how often, and when it is given up.

    Every number asked for has a clock: when it was found missing, when the next attempt is due, and how many
    attempts were made. A gap sets it, a fill leaves it alone, and a poll reads it and moves it on. */
module Schedules {
  import opened Errors
  import opened Ranges
  import opened GapSets
  import opened RetransmitPolicies
  import opened Requesters

  datatype Clock = Clock(discovered: int, next: int, attempts: nat)

  function ClockOf(e: Entry): Clock { Clock(e.discovered, e.nextAttempt, e.attempts) }

  /** Whatever entry holds the number shows this clock. */
  ghost predicate Shows(es: seq<Entry>, n: nat, clock: Clock) {
    forall i :: 0 <= i < |es| && es[i].range.Contains(n) ==> ClockOf(es[i]) == clock
  }

  /** In a sound list every number asked for has exactly one clock. */
  lemma EveryNumberHasAClock(p: Policy, es: seq<Entry>, n: nat) returns (clock: Clock)
    requires Sound(p, es) && n in Cover(es)
    ensures Shows(es, n, clock)
    ensures forall other :: Shows(es, n, other) ==> other == clock
  {
    var at := CoverWitness(es, n);
    clock := ClockOf(es[at]);
    forall i | 0 <= i < |es| && es[i].range.Contains(n) ensures i == at {
      if i < at {
        EntriesDisjoint(p, es, i, at);
      } else if at < i {
        EntriesDisjoint(p, es, at, i);
      }
    }
  }

  // ---- a gap ------------------------------------------------------------------------------

  /** Not yet asked for, and not before the settle delay is over. */
  predicate Starting(p: Policy, e: Entry, now: int) { e.attempts == 0 && e.nextAttempt == now + p.settleDelay }

  /** Untouched, or about to start: found missing now, or when the entry it grew from was, if that was earlier. */
  ghost predicate StartsFrom(p: Policy, es: seq<Entry>, e: Entry, now: int) {
    || e in es
    || (Starting(p, e, now) && e.discovered == now)
    || (Starting(p, e, now) && exists d :: d in es && GrewFrom(d, e, now))
  }

  predicate GrewFrom(d: Entry, e: Entry, now: int) {
    && e.discovered <= d.discovered && e.discovered <= now && (e.discovered == d.discovered || e.discovered == now)
    && e.range.first <= d.range.first && d.range.end <= e.range.end
  }

  lemma GrewTwice(a: Entry, b: Entry, c: Entry, now: int)
    requires GrewFrom(a, b, now) && GrewFrom(b, c, now)
    ensures GrewFrom(a, c, now)
  {}

  lemma AdmittedStarts(p: Policy, es: seq<Entry>, chunk: Range, now: int)
    requires Admitted(p, es, chunk, now).Some?
    ensures forall e :: e in Admitted(p, es, chunk, now).value ==> StartsFrom(p, es, e, now)
  {
    var after, at := Admitted(p, es, chunk, now).value, FirstJoinable(p, es, chunk);
    forall e | e in after ensures StartsFrom(p, es, e, now) {
      if at < |es| && e == after[at] {
        assert GrewFrom(es[at], e, now);
      }
    }
  }

  /** Every entry left by a gap is one that was there, or starts from no attempts once the settle delay is over. */
  lemma {:induction false} GapStartsOver(p: Policy, es: seq<Entry>, hole: Range, now: int)
    requires Valid(p)
    ensures forall e :: e in AfterGap(p, es, hole, now).entries ==> StartsFrom(p, es, e, now)
    decreases hole.Count()
  {
    if !hole.IsEmpty() {
      var chunk := NextChunk(p, hole);
      var admitted := Admitted(p, es, chunk, now);
      if admitted.Some? {
        var rest := Range(chunk.end, hole.end);
        GapStartsOver(p, admitted.value, rest, now);
        AdmittedStarts(p, es, chunk, now);
        forall e | e in AfterGap(p, es, hole, now).entries ensures StartsFrom(p, es, e, now) {
          StartsThrough(p, es, admitted.value, e, now);
        }
      }
    }
  }

  lemma StartsThrough(p: Policy, es: seq<Entry>, mid: seq<Entry>, e: Entry, now: int)
    requires StartsFrom(p, mid, e, now) && forall d :: d in mid ==> StartsFrom(p, es, d, now)
    ensures StartsFrom(p, es, e, now)
  {
    if e !in mid && !(Starting(p, e, now) && e.discovered == now) {
      var d :| d in mid && GrewFrom(d, e, now);
      assert StartsFrom(p, es, d, now);
      if d !in es && d.discovered != now {
        var a :| a in es && GrewFrom(a, d, now);
        GrewTwice(a, d, e, now);
        assert GrewFrom(a, e, now);
      }
    }
  }

  /** And every entry that was there still is, or grew: its messages are as old as they were. */
  lemma {:induction false} GapKeepsAges(p: Policy, es: seq<Entry>, hole: Range, now: int, d: Entry) returns (e: Entry)
    requires Valid(p) && d in es
    ensures e in AfterGap(p, es, hole, now).entries && (e == d || GrewFrom(d, e, now))
    decreases hole.Count()
  {
    e := d;
    if !hole.IsEmpty() {
      var chunk := NextChunk(p, hole);
      var admitted := Admitted(p, es, chunk, now);
      if admitted.Some? {
        var mid := AdmittedKeepsAges(p, es, chunk, now, d);
        e := GapKeepsAges(p, admitted.value, Range(chunk.end, hole.end), now, mid);
      }
    }
  }

  lemma AdmittedKeepsAges(p: Policy, es: seq<Entry>, chunk: Range, now: int, d: Entry) returns (e: Entry)
    requires Admitted(p, es, chunk, now).Some? && d in es
    ensures e in Admitted(p, es, chunk, now).value && (e == d || GrewFrom(d, e, now))
  {
    var i :| 0 <= i < |es| && es[i] == d;
    e := Admitted(p, es, chunk, now).value[i];
  }

  /** One entry more only when the chunk fits behind none that it touches; refused only when there is no room for one. */
  lemma AdmitsExactly(p: Policy, es: seq<Entry>, chunk: Range, now: int)
    requires !chunk.IsEmpty() && forall e :: e in es ==> !e.range.IsEmpty()
    ensures var admitted := Admitted(p, es, chunk, now);
            var fits := exists e :: e in es && OneRequest(p, e.range, chunk);
            && (admitted.None? <==> !fits && |es| >= MAX_OUTSTANDING_GAPS)
            && (admitted.Some? ==> |admitted.value| == if fits then |es| else |es| + 1)
  {
    var at := FirstJoinable(p, es, chunk);
    if at < |es| {
      assert es[at] in es && OneRequest(p, es[at].range, chunk);
    } else {
      NoneJoinable(p, es, chunk);
    }
  }

  /** Two ranges that overlap or lie side by side, together no wider than a request. */
  predicate OneRequest(p: Policy, a: Range, b: Range) {
    var first, end := if a.first < b.first then a.first else b.first, if a.end > b.end then a.end else b.end;
    a.first <= b.end && b.first <= a.end && end - first <= p.maxMessages
  }

  lemma {:induction false} NoneJoinable(p: Policy, es: seq<Entry>, chunk: Range)
    requires !chunk.IsEmpty() && (forall e :: e in es ==> !e.range.IsEmpty()) && FirstJoinable(p, es, chunk) == |es|
    ensures forall e :: e in es ==> !OneRequest(p, e.range, chunk)
  {
    if es != [] {
      NoneJoinable(p, es[1..], chunk);
      forall e | e in es ensures !OneRequest(p, e.range, chunk) {
        assert e == es[0] || e in es[1..];
      }
    }
  }

  /** A hole of which nothing was asked for yet: none of it has been attempted, and none of it is due before the
      settle delay is over. */
  lemma GapSetsTheClock(p: Policy, es: seq<Entry>, hole: Range, now: int, e: Entry, n: nat)
    requires Valid(p) && Cover(es) !! Span(hole) && n in Span(hole)
    requires e in AfterGap(p, es, hole, now).entries && e.range.Contains(n)
    ensures Starting(p, e, now) && e.discovered <= now
  {
    GapStartsOver(p, es, hole, now);
    assert StartsFrom(p, es, e, now) && n in Span(e.range);
    if e in es {
      var i :| 0 <= i < |es| && es[i] == e;
      CoverMember(es, i);
    }
  }

  // ---- a fill -------------------------------------------------------------------------------

  lemma AddShows(es: seq<Entry>, e: Entry, part: Range, n: nat, clock: Clock)
    requires Shows(es, n, clock) && (part.Contains(n) ==> ClockOf(e) == clock)
    ensures Shows(AddEntry(es, e, part), n, clock)
  {}

  /** What arrives stops being asked for; for the rest the same attempts stand, both halves of a split included. */
  lemma {:induction false} CutLeavesTheClock(es: seq<Entry>, filled: Range, n: nat, clock: Clock)
    requires Shows(es, n, clock)
    ensures Shows(Cut(es, filled), n, clock)
  {
    if es != [] {
      var front, e := es[..|es| - 1], es[|es| - 1];
      assert Shows(front, n, clock);
      CutLeavesTheClock(front, filled, n, clock);
      var left := Subtract(e.range, filled);
      assert left.before.Contains(n) || left.after.Contains(n) ==> e.range.Contains(n);
      AddShows(Cut(front, filled), e, left.before, n, clock);
      AddShows(AddEntry(Cut(front, filled), e, left.before), e, left.after, n, clock);
    }
  }

  lemma FillLeavesTheClock(es: seq<Entry>, arrived: Range, n: nat, clock: Clock)
    requires Shows(es, n, clock)
    ensures Shows(AfterFill(es, arrived).entries, n, clock)
  {
    CutLeavesTheClock(es, arrived, n, clock);
  }

  // ---- a poll -------------------------------------------------------------------------------

  /** What a poll does to the clock of a number that is asked for. */
  ghost predicate PollReads(p: Policy, clock: Clock, n: nat, now: int, polled: Polled)
    requires Valid(p)
  {
    match polled.decision
    case Idle => Shows(polled.entries, n, clock) && now < clock.next && now - clock.discovered < p.retentionWindow
    case Send(range, attempt) =>
      if range.Contains(n) then
        && now >= clock.next && now - clock.discovered < p.retentionWindow
        && attempt == clock.attempts + 1 <= p.maxAttempts
        && Shows(polled.entries, n, Clock(clock.discovered, now + Timeout(p, attempt), attempt))
      else Shows(polled.entries, n, clock) && !GivesUp(p, clock, now)
    case Abandon(range, why) =>
      if range.Contains(n) then
        && n !in Cover(polled.entries) && GivesUp(p, clock, now)
        && why == (if now - clock.discovered >= p.retentionWindow then RetransmitWindowExceeded else RetransmitTimedOut)
      else Shows(polled.entries, n, clock)
  }

  /** Out of the retention window, or out of attempts with the last one's wait over. */
  predicate GivesUp(p: Policy, clock: Clock, now: int) {
    now - clock.discovered >= p.retentionWindow || (clock.attempts == p.maxAttempts && now >= clock.next)
  }

  /** A poll is idle only before the next attempt is due. It sends a number's next attempt only once it is due, and
      then the one after that is due when this one's wait is over. It gives a number up only out of the window, or
      after the last attempt's wait. */
  lemma PollMovesTheClock(p: Policy, es: seq<Entry>, now: int, n: nat, clock: Clock)
    requires Valid(p) && Sound(p, es) && n in Cover(es) && Shows(es, n, clock)
    ensures PollReads(p, clock, n, now, AfterPoll(p, es, now))
  {
    var at := CoverWitness(es, n);
    ShapedAt(p, es, at);
    OnlyOne(p, es, at, n);
    var polled := AfterPoll(p, es, now);
    var hopeless, due := Oldest(p, es, now, Hopeless), Oldest(p, es, now, Due);
    if hopeless < |es| {
      RemovedExact(p, es, hopeless);
      assert forall e :: e in Removed(es, hopeless) ==> e in es;
    }
  }

  lemma OnlyOne(p: Policy, es: seq<Entry>, at: nat, n: nat)
    requires Shaped(p, es) && at < |es| && es[at].range.Contains(n)
    ensures forall i :: 0 <= i < |es| && es[i].range.Contains(n) ==> i == at
  {
    forall i | 0 <= i < |es| && es[i].range.Contains(n) ensures i == at {
      if i < at {
        EntriesDisjoint(p, es, i, at);
      } else if at < i {
        EntriesDisjoint(p, es, at, i);
      }
    }
  }

  // ---- over runs -----------------------------------------------------------------------------

  /** Until something new is found missing. */
  datatype Act = PollAt(now: int) | Fill(arrived: Range)

  function Acted(p: Policy, es: seq<Entry>, act: Act): seq<Entry>
    requires Valid(p)
  {
    match act
    case PollAt(now) => AfterPoll(p, es, now).entries
    case Fill(arrived) => AfterFill(es, arrived).entries
  }

  function Run(p: Policy, es: seq<Entry>, acts: seq<Act>): seq<Entry>
    requires Valid(p)
  {
    if acts == [] then es else Acted(p, Run(p, es, acts[..|acts| - 1]), acts[|acts| - 1])
  }

  predicate Asks(p: Policy, es: seq<Entry>, act: Act, n: nat)
    requires Valid(p)
  {
    act.PollAt? && AfterPoll(p, es, act.now).decision.Send? && AfterPoll(p, es, act.now).decision.range.Contains(n)
  }

  /** How often a number was asked for. */
  function Sends(p: Policy, es: seq<Entry>, acts: seq<Act>, n: nat): nat
    requires Valid(p)
  {
    if acts == [] then 0
    else
      var front := acts[..|acts| - 1];
      Sends(p, es, front, n) + if Asks(p, Run(p, es, front), acts[|acts| - 1], n) then 1 else 0
  }

  lemma ActKeepsSound(p: Policy, es: seq<Entry>, act: Act)
    requires Valid(p) && Sound(p, es)
    ensures Sound(p, Acted(p, es, act)) && Cover(Acted(p, es, act)) <= Cover(es)
  {
    match act
    case PollAt(now) => PollKeepsSound(p, es, now);
    case Fill(arrived) => FillIsExact(p, es, arrived);
  }

  lemma {:induction false} RunKeepsSound(p: Policy, es: seq<Entry>, acts: seq<Act>)
    requires Valid(p) && Sound(p, es)
    ensures Sound(p, Run(p, es, acts)) && Cover(Run(p, es, acts)) <= Cover(es)
  {
    if acts != [] {
      RunKeepsSound(p, es, acts[..|acts| - 1]);
      ActKeepsSound(p, Run(p, es, acts[..|acts| - 1]), acts[|acts| - 1]);
    }
  }

  /** Of one act the clock shows at most an attempt more; without one it does not move. */
  lemma ActMovesTheClock(p: Policy, es: seq<Entry>, act: Act, n: nat, clock: Clock) returns (after: Clock)
    requires Valid(p) && Sound(p, es) && n in Cover(Acted(p, es, act)) && Shows(es, n, clock)
    ensures Shows(Acted(p, es, act), n, after) && after.discovered == clock.discovered
    ensures after.attempts == clock.attempts + if Asks(p, es, act, n) then 1 else 0
    ensures !Asks(p, es, act, n) ==> after == clock
  {
    ActKeepsSound(p, es, act);
    after := clock;
    if act.PollAt? {
      PollMovesTheClock(p, es, act.now, n, clock);
      if Asks(p, es, act, n) {
        var attempt := AfterPoll(p, es, act.now).decision.attempt;
        after := Clock(clock.discovered, act.now + Timeout(p, attempt), attempt);
      }
    } else {
      FillLeavesTheClock(es, act.arrived, n, clock);
    }
  }

  /** A number still asked for has been attempted as often as it was sent, and counts as found missing when it was. */
  lemma {:induction false} AttemptsAreSends(p: Policy, es: seq<Entry>, acts: seq<Act>, n: nat, clock: Clock) returns (after: Clock)
    requires Valid(p) && Sound(p, es) && n in Cover(Run(p, es, acts)) && Shows(es, n, clock)
    ensures Shows(Run(p, es, acts), n, after) && after.discovered == clock.discovered
    ensures after.attempts == clock.attempts + Sends(p, es, acts, n)
    ensures Sends(p, es, acts, n) == 0 ==> after == clock
  {
    after := clock;
    if acts != [] {
      var front, act := acts[..|acts| - 1], acts[|acts| - 1];
      RunKeepsSound(p, es, front);
      ActKeepsSound(p, Run(p, es, front), act);
      after := AttemptsAreSends(p, es, front, n, clock);
      after := ActMovesTheClock(p, Run(p, es, front), act, n, after);
    }
  }

  /** From a hole on that was never asked for: the attempt a send names is the count of sends, and a number is given
      up for want of an answer after exactly as many as the policy allows. */
  lemma TimedOutAfterEveryAttempt(p: Policy, es: seq<Entry>, acts: seq<Act>, now: int, n: nat, clock: Clock)
    requires Valid(p) && Sound(p, es) && n in Cover(Run(p, es, acts)) && Shows(es, n, clock) && clock.attempts == 0
    ensures var d := AfterPoll(p, Run(p, es, acts), now).decision;
            && (d.Send? && d.range.Contains(n) ==> d.attempt == Sends(p, es, acts, n) + 1 <= p.maxAttempts)
            && (d.Abandon? && d.range.Contains(n) ==>
                  if d.reason == RetransmitTimedOut then Sends(p, es, acts, n) == p.maxAttempts
                  else d.reason == RetransmitWindowExceeded && now - clock.discovered >= p.retentionWindow)
  {
    RunKeepsSound(p, es, acts);
    var after := AttemptsAreSends(p, es, acts, n, clock);
    PollMovesTheClock(p, Run(p, es, acts), now, n, after);
  }

  /** After a send the next attempt is due exactly when the wait of this one is over: not asked for before, and no
      poll is idle from then on. */
  lemma NextAttemptIsDueExactly(p: Policy, es: seq<Entry>, now: int, acts: seq<Act>, later: int, n: nat)
    requires Valid(p) && Sound(p, es) && Asks(p, es, PollAt(now), n)
    requires var sent := AfterPoll(p, es, now).entries; n in Cover(Run(p, sent, acts)) && Sends(p, sent, acts, n) == 0
    ensures var sent, wait := AfterPoll(p, es, now), Timeout(p, AfterPoll(p, es, now).decision.attempt);
            var d := AfterPoll(p, Run(p, sent.entries, acts), later).decision;
            && (d.Idle? ==> later < now + wait)
            && (d.Send? && d.range.Contains(n) ==> later >= now + wait)
            && (d.Abandon? && d.range.Contains(n) && d.reason == RetransmitTimedOut ==> later >= now + wait)
  {
    var sent := AfterPoll(p, es, now);
    ActKeepsSound(p, es, PollAt(now));
    RunKeepsSound(p, sent.entries, acts);
    var clock := EveryNumberHasAClock(p, es, n);
    PollMovesTheClock(p, es, now, n, clock);
    var after := AttemptsAreSends(p, sent.entries, acts, n, Clock(clock.discovered, now + Timeout(p, sent.decision.attempt), sent.decision.attempt));
    PollMovesTheClock(p, Run(p, sent.entries, acts), later, n, after);
  }

  // ---- a hole from the start -----------------------------------------------------------------

  /** A full entry below a hole absorbs none of it. */
  lemma {:induction false} GapKeepsTheFirst(p: Policy, es: seq<Entry>, hole: Range, now: int)
    requires Valid(p) && es != [] && es[0].range.Count() == p.maxMessages && es[0].range.end <= hole.first
    ensures var after := AfterGap(p, es, hole, now).entries; after != [] && after[0] == es[0]
    decreases hole.Count()
  {
    if !hole.IsEmpty() {
      var chunk := NextChunk(p, hole);
      assert !Joinable(p, es[0], chunk);
      var admitted := Admitted(p, es, chunk, now);
      if admitted.Some? {
        GapKeepsTheFirst(p, admitted.value, Range(chunk.end, hole.end), now);
      }
    }
  }

  lemma FirstIsLowest(p: Policy, hole: Range, now: int)
    requires Valid(p) && !hole.IsEmpty()
    ensures var after := AfterGap(p, [], hole, now).entries;
            after != [] && after[0].range == Range(hole.first, if hole.Count() < p.maxMessages then hole.end else hole.first + p.maxMessages)
  {
    var chunk := NextChunk(p, hole);
    var first := Entry(chunk, now, now + p.settleDelay, 0);
    assert Admitted(p, [], chunk, now) == Some([] + [first]) && [] + [first] == [first];
    if chunk.end < hole.end {
      GapKeepsTheFirst(p, [first], Range(chunk.end, hole.end), now);
    }
  }

  /** Nothing was attempted and all of it was found missing at one time. */
  ghost predicate JustFound(p: Policy, es: seq<Entry>, now: int) {
    forall e :: e in es ==> Starting(p, e, now) && e.discovered == now
  }

  lemma WaitsToSettle(p: Policy, es: seq<Entry>, now: int, later: int)
    requires Valid(p) && JustFound(p, es, now) && later < now + p.settleDelay
    ensures AfterPoll(p, es, later) == Polled(es, Idle)
  {
    var hopeless, due := Oldest(p, es, later, Hopeless), Oldest(p, es, later, Due);
    assert forall i :: 0 <= i < |es| ==> es[i] in es;
  }

  /** Polls before the settle delay is over do nothing at all. */
  lemma {:induction false} AllWaitToSettle(p: Policy, es: seq<Entry>, now: int, times: seq<int>)
    requires Valid(p) && JustFound(p, es, now) && forall i :: 0 <= i < |times| ==> times[i] < now + p.settleDelay
    ensures PollAll(p, es, times) == (es, 0)
    decreases |times|
  {
    if times != [] {
      WaitsToSettle(p, es, now, times[0]);
      AllWaitToSettle(p, es, now, times[1..]);
    }
  }

  /** A hole found with nothing outstanding is not asked for before the settle delay is over, however often it is
      polled, and the first poll from then on, inside the retention window, asks for its lowest request's worth, as
      attempt 1. */
  lemma FirstRequest(p: Policy, hole: Range, now: int, times: seq<int>, later: int)
    requires Valid(p) && !hole.IsEmpty()
    requires forall i :: 0 <= i < |times| ==> times[i] < now + p.settleDelay
    requires now + p.settleDelay <= later < now + p.retentionWindow
    ensures var found := AfterGap(p, [], hole, now).entries;
            && PollAll(p, found, times) == (found, 0)
            && AfterPoll(p, found, later).decision ==
               Send(Range(hole.first, if hole.Count() < p.maxMessages then hole.end else hole.first + p.maxMessages), 1)
  {
    var found := AfterGap(p, [], hole, now).entries;
    GapStartsOver(p, [], hole, now);
    forall e | e in found ensures Starting(p, e, now) && e.discovered == now {
      assert StartsFrom(p, [], e, now);
    }
    AllWaitToSettle(p, found, now, times);
    FirstIsLowest(p, hole, now);
    FirstGoesOut(p, found, now, later);
  }

  lemma FirstGoesOut(p: Policy, es: seq<Entry>, now: int, later: int)
    requires Valid(p) && JustFound(p, es, now) && es != [] && now + p.settleDelay <= later < now + p.retentionWindow
    ensures AfterPoll(p, es, later).decision == Send(es[0].range, 1)
  {
    var hopeless, due := Oldest(p, es, later, Hopeless), Oldest(p, es, later, Due);
    forall i | 0 <= i < |es| ensures Eligible(p, es[i], later, Due) && !Eligible(p, es[i], later, Hopeless) {
      assert es[i] in es;
    }
    assert due < |es| && es[due] in es && es[0] in es;
  }

  /** Of what is due the oldest is sent, of what is hopeless the oldest given up, and nothing is sent before
      everything hopeless was given up. */
  lemma OldestFirst(p: Policy, es: seq<Entry>, now: int)
    requires Valid(p)
    ensures var polled := AfterPoll(p, es, now);
            && (polled.decision.Send? ==>
                  exists e :: e in es && e.range == polled.decision.range && Eligible(p, e, now, Due) &&
                    forall d :: d in es ==> GiveUpReason(p, d, now).None? && (Eligible(p, d, now, Due) ==> e.discovered <= d.discovered))
            && (polled.decision.Abandon? ==>
                  exists e :: e in es && e.range == polled.decision.range && GiveUpReason(p, e, now) == Some(polled.decision.reason) &&
                    forall d :: d in es ==> (GiveUpReason(p, d, now).Some? ==> e.discovered <= d.discovered))
  {
    var hopeless, due := Oldest(p, es, now, Hopeless), Oldest(p, es, now, Due);
    if hopeless < |es| {
      assert es[hopeless] in es;
      assert forall d :: d in es && GiveUpReason(p, d, now).Some? ==> Eligible(p, d, now, Hopeless);
    } else if due < |es| {
      assert es[due] in es;
      assert forall d :: d in es && GiveUpReason(p, d, now).Some? ==> Eligible(p, d, now, Hopeless);
    }
  }
}
