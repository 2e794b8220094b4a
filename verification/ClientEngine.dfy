/** The client itself: four components owned and driven in one order. Each call is proved to do to the
    whole object what Clients.dfy says it does to a state. */
module ClientEngine {
  import opened Errors
  import opened Ranges
  import opened GapSets
  import opened Snapshots
  import opened Clients
  import Arbiters
  import Policies = RetransmitPolicies
  import Replay = ReplayBuffers
  import Requesters
  import Trackers = GapTrackers

  /** What the four owned components stand for. */
  datatype Components = Components(
    arbiter: Arbiters.Position, channel: Trackers.Channel, entries: seq<Requesters.Entry>, buffer: Replay.Buffer)

  class Client {
    const options: Options
    const arbiter: Arbiters.Arbiter
    const tracker: Trackers.GapTracker
    const requester: Requesters.Requester
    const buffer: Replay.ReplayBuffer

    var phase: Phase
    var reason: Option<Error>
    var lastRecovered: seq<Range>
    var deliveredBefore: nat
    var wanted: Range
    var session: nat
    var started: bool

    ghost function Parts(): set<object> {
      {arbiter, arbiter.digests, tracker, tracker.missing, tracker.missing.ranges,
       requester, requester.entries, buffer, buffer.arena, buffer.index}
    }

    /** No component shares storage with another. */
    ghost predicate Separate() {
      var d: object, r: object, e: object, a: object, i: object :=
        arbiter.digests, tracker.missing.ranges, requester.entries, buffer.arena, buffer.index;
      d != r && d != e && d != a && d != i && r != e && r != a && r != i && e != a && e != i && a != i
    }

    ghost predicate Healthy()
      reads Parts()
    {
      && Separate()
      && arbiter.Valid() && tracker.Valid() && requester.Valid() && buffer.Valid()
      && Policies.Valid(options.policy)
      && requester.policy == options.policy
      && arbiter.detect == options.detect
      && buffer.Capacity() == options.limits
    }

    ghost function Owned(): Components
      reads Parts()
      requires Healthy()
    {
      Components(arbiter.Model(), tracker.Model(), requester.Model(), buffer.Model())
    }

    ghost predicate Valid()
      reads this, Parts()
    {
      Healthy() && Canonical(lastRecovered)
    }

    ghost function Model(): State
      reads this, Parts()
      requires Valid()
    {
      var owned := Owned();
      State(phase, reason, owned.arbiter, owned.channel, owned.entries, owned.buffer,
            Den(lastRecovered), deliveredBefore, wanted, session, started)
    }

    constructor (options: Options)
      requires Policies.Valid(options.policy) && options.limits.bytes > 0 && options.limits.messages > 0
      ensures Valid()
      ensures fresh(arbiter) && fresh(arbiter.digests) && fresh(tracker) && fresh(tracker.missing) && fresh(tracker.missing.ranges)
      ensures fresh(requester) && fresh(requester.entries) && fresh(buffer) && fresh(buffer.arena) && fresh(buffer.index)
      ensures this.options == options && Model() == NEW_CLIENT
    {
      this.options := options;
      arbiter := new Arbiters.Arbiter(options.detect);
      tracker := new Trackers.GapTracker();
      requester := new Requesters.Requester(options.policy);
      buffer := new Replay.ReplayBuffer(options.limits.bytes, options.limits.messages);
      phase, reason, lastRecovered := Synchronising, None, [];
      deliveredBefore, wanted, session, started := 0, EMPTY, 0, false;
    }

    /** Gives up on retransmission: a snapshot is the only way back. */
    method Escalate(why: Error, about: Range)
      requires Valid()
      modifies this, buffer
      ensures Valid() && Model() == Escalated(old(Model()), why, about)
    {
      ClearBuffer();
      phase, reason, wanted := Recovering, Some(why), about;
    }

    method RestartForNewSession(session: nat)
      requires Valid()
      modifies this, Parts()
      ensures Valid() && Model() == Restarted(old(Model()), session)
    {
      EmptyComponents();
      phase, reason, wanted := Synchronising, None, EMPTY;
      this.session, deliveredBefore := session, 0;
    }

    /** Everything that numbers of the old session mean nothing to; the tracker keeps its own account. */
    method EmptyComponents()
      requires Healthy()
      modifies arbiter, requester, buffer
      ensures Healthy()
      ensures Owned() == Components(Arbiters.STREAM_START, old(Owned()).channel, [], Replay.NOTHING_HELD)
    {
      ResetArbiter();
      ClearBuffer();
      ResetRequester();
    }

    // Each component is moved on its own; the others stay as they are.

    method ClearBuffer()
      requires Healthy()
      modifies buffer
      ensures Healthy() && Owned() == old(Owned()).(buffer := Replay.NOTHING_HELD)
    {
      buffer.Clear();
    }

    method ResetArbiter()
      requires Healthy()
      modifies arbiter
      ensures Healthy() && Owned() == old(Owned()).(arbiter := Arbiters.STREAM_START)
    {
      arbiter.ResetStream();
    }

    method ResetRequester()
      requires Healthy()
      modifies requester
      ensures Healthy() && Owned() == old(Owned()).(entries := [])
    {
      requester.Reset();
    }

    method AdvanceArbiter(sequence: nat)
      requires Healthy()
      modifies arbiter
      ensures Healthy() && Owned() == old(Owned()).(arbiter := Arbiters.Adopted(old(Owned()).arbiter, sequence))
    {
      arbiter.Adopt(sequence);
    }

    method ObservePacket(session: nat, arrived: Range) returns (seen: Result<Trackers.Observation>)
      requires Healthy()
      modifies tracker, tracker.missing, tracker.missing.ranges
      ensures Healthy()
      ensures var (channel, answer) := Trackers.Observed(old(Owned()).channel, session, arrived.first, arrived.Count());
              Owned() == old(Owned()).(channel := channel) && seen == answer
    {
      seen := tracker.Observe(session, arrived.first, arrived.Count());
    }

    method TakeSnapshot(session: nat, at: nat)
      requires Healthy()
      modifies tracker, tracker.missing, tracker.missing.ranges
      ensures Healthy()
      ensures Owned() == old(Owned()).(channel := Trackers.SnapshotTaken(old(Owned()).channel, session, at).0)
    {
      var _ := tracker.SnapshotAt(session, at);
    }

    method ForgetRequests(bound: nat)
      requires Healthy()
      modifies requester, requester.entries
      ensures Healthy()
      ensures Owned() == old(Owned()).(entries := Requesters.AfterFill(old(Owned()).entries, Range(0, bound)).entries)
    {
      var _ := requester.OnFilled(Range(0, bound));
    }

    method OnPacket(session: nat, first: nat, count: nat, digest: nat, now: int) returns (result: Result<Report>)
      requires Valid()
      modifies this, Parts()
      ensures Valid()
      ensures (Model(), result) == Clients.OnPacket(options, old(Model()), session, first, count, digest, now)
    {
      match phase {
        case Failed(why) => return Err(why);
        case Replaying => return Err(InvalidArgument);
        case _ =>
      }
      var changed := started && session != this.session;
      if changed {
        RestartForNewSession(session);
      }
      result := Arbitrate(session, changed, Range(first, first + count), digest, now);
    }

    method Arbitrate(session: nat, changed: bool, arrived: Range, digest: nat, now: int) returns (result: Result<Report>)
      requires Valid() && arrived.first <= arrived.end
      modifies this, Parts()
      ensures Valid()
      ensures (Model(), result) == Arbitrated(options, old(Model()), session, changed, arrived, digest, now)
    {
      var merged := arbiter.Offer(arrived, digest);
      if merged.Err? {
        phase := Failed(merged.error);
        return Err(merged.error);
      }
      Note(session, changed, arrived);
      result := Judge(arrived, merged.value, now);
    }

    /** Takes on the session and works out what the packet repairs, before the holes close. */
    method Note(session: nat, changed: bool, arrived: Range)
      requires Valid()
      modifies this
      ensures Valid()
      ensures Model() == Noted(old(Model()), old(Model()).arbiter, session,
                               if changed then {} else old(Model()).channel.missing * Span(arrived))
    {
      var repaired: seq<Range> := [];
      if !changed {
        repaired := tracker.missing.Intersect(arrived);
      }
      TakeOn(session, repaired);
    }

    method TakeOn(session: nat, repaired: seq<Range>)
      requires Valid() && Canonical(repaired)
      modifies this
      ensures Valid()
      ensures Model() == old(Model()).(started := true, session := session, recovered := Den(repaired))
    {
      started, this.session, lastRecovered := true, session, repaired;
    }

    method Judge(arrived: Range, merged: Arbiters.Merged, now: int) returns (result: Result<Report>)
      requires Valid() && arrived.first <= arrived.end
      modifies this, Parts()
      ensures Valid()
      ensures (Model(), result) == Judged(options, old(Model()), arrived, merged, now)
    {
      EmptyOnlyAsNothing(lastRecovered);
      if !arrived.IsEmpty() && merged.deliver.IsEmpty() && lastRecovered == [] {
        return Ok(Report(merged.outcome, merged.deliver, Trackers.InOrder, EMPTY, 0, false));
      }
      result := Sequence(arrived, merged, now);
    }

    static lemma EmptyOnlyAsNothing(s: seq<Range>)
      requires Canonical(s)
      ensures s == [] <==> Den(s) == {}
    {
      if s != [] {
        assert s[|s| - 1].first in Span(s[|s| - 1]);
      }
    }

    method Sequence(arrived: Range, merged: Arbiters.Merged, now: int) returns (result: Result<Report>)
      requires Valid() && arrived.first <= arrived.end
      modifies this, Parts()
      ensures Valid()
      ensures (Model(), result) == Sequenced(options, old(Model()), arrived, merged, now)
    {
      var seen := ObservePacket(session, arrived);
      ghost var channel := Owned().channel;
      result := Answer(seen, merged, now);
      assert Model() == Answered(options, old(Model()), channel, seen, merged, now).0;
    }

    /** Arbiter and requester follow the tracker, or the client gives up. */
    method Answer(seen: Result<Trackers.Observation>, merged: Arbiters.Merged, now: int) returns (result: Result<Report>)
      requires Valid()
      modifies this, arbiter, requester, requester.entries, buffer
      ensures Valid()
      ensures (Model(), result) == Answered(options, old(Model()), old(Model()).channel, seen, merged, now)
    {
      if seen.Err? {
        Escalate(seen.error, EMPTY);
        return Err(seen.error);
      }
      AdvanceArbiter(tracker.expected);
      var told := Tell(seen.value, now);
      if !told {
        Escalate(CapacityExceeded, EMPTY);
        return Err(CapacityExceeded);
      }
      result := Deliver(merged, seen.value);
    }

    method Tell(seen: Trackers.Observation, now: int) returns (told: bool)
      requires Healthy()
      modifies requester, requester.entries
      ensures Healthy()
      ensures Owned() == old(Owned()).(entries := Told(options, old(Owned()).entries, seen, now).0)
      ensures told == Told(options, old(Owned()).entries, seen, now).1
    {
      if seen.outcome == Trackers.GapOpened {
        told := requester.OnGap(seen.range, now);
      } else if seen.outcome == Trackers.GapFilled && seen.recovered > 0 {
        told := requester.OnFilled(seen.range);
      } else {
        told := true;
      }
    }

    method Deliver(merged: Arbiters.Merged, seen: Trackers.Observation) returns (result: Result<Report>)
      requires Valid()
      modifies this
      ensures Valid()
      ensures (Model(), result) == Delivered(old(Model()), merged, seen)
    {
      var repaired := CountRecovered();
      var held := MoveOn(merged.deliver.end);
      return Ok(Report(merged.outcome, merged.deliver, seen.outcome,
                       if seen.outcome == Trackers.GapOpened then seen.range else EMPTY, repaired, held));
    }

    /** The phase and the delivery position after a packet went through. */
    method MoveOn(end: nat) returns (held: bool)
      requires Valid()
      modifies this
      ensures Valid()
      ensures held == (old(phase) == Recovering)
      ensures Model() == old(Model()).(phase := if old(phase) == Synchronising then Live else old(phase),
                                       deliveredBefore := if !held && end > old(deliveredBefore) then end else old(deliveredBefore))
    {
      if phase == Synchronising {
        phase := Live;
      }
      held := phase == Recovering;
      if !held && end > deliveredBefore {
        deliveredBefore := end;
      }
    }

    method CountRecovered() returns (total: nat)
      requires Canonical(lastRecovered)
      ensures total == |Den(lastRecovered)|
    {
      TotalIsCardinality(lastRecovered);
      total := 0;
      for i := 0 to |lastRecovered|
        invariant total == Total(lastRecovered[..i])
      {
        assert lastRecovered[..i + 1][..i] == lastRecovered[..i];
        total := total + lastRecovered[i].Count();
      }
      assert lastRecovered[..|lastRecovered|] == lastRecovered;
    }

    method BufferMessage(sequence: nat, message: Replay.Bytes) returns (result: Result<()>)
      requires Valid() && phase == Recovering
      modifies this, buffer, buffer.arena, buffer.index
      ensures Valid()
      ensures (Model(), result) == Clients.BufferMessage(options, old(Model()), sequence, message)
    {
      result := buffer.Append(sequence, message);
      if result.Err? {
        phase := Failed(result.error);
      }
    }

    method OnRetransmitRefused(range: Range, why: Error) returns (result: Result<()>)
      requires Valid()
      modifies this, buffer
      ensures Valid()
      ensures (Model(), result) == Clients.OnRetransmitRefused(old(Model()), range, why)
    {
      if phase.Failed? {
        return Err(phase.why);
      }
      if why.IsFatal() {
        Escalate(why, range);
      }
      return Ok(());
    }

    method Poll(now: int) returns (decision: Decision)
      requires Valid()
      modifies this, requester, requester.entries, buffer
      ensures Valid()
      ensures (Model(), decision) == Clients.Poll(options, old(Model()), now)
    {
      match phase {
        case Failed(why) => return Restart(why);
        case Replaying => return Idle;
        case Recovering => return RequestSnapshot(wanted, reason);
        case _ =>
      }
      var next := requester.Poll(now);
      match next {
        case Send(range, attempt) => return SendRequest(range, attempt);
        case Abandon(range, why) =>
          Escalate(why, range);
          return RequestSnapshot(range, Some(why));
        case Idle => return Idle;
      }
    }

    method OnSnapshot(session: nat, at: nat) returns (result: Result<Plan>)
      requires Valid()
      modifies this, Parts()
      ensures Valid()
      ensures (Model(), result) == Clients.OnSnapshot(old(Model()), session, at)
    {
      if phase.Failed? {
        return Err(phase.why);
      }
      if started && session != this.session {
        RestartForNewSession(session);
      }
      var held := buffer.Buffered();
      var plan := PlanSnapshot(at, held, deliveredBefore);
      CarryOut(session, at, plan);
      return Ok(plan);
    }

    method CarryOut(session: nat, at: nat, plan: Plan)
      requires Valid()
      modifies this, Parts()
      ensures Valid()
      ensures plan.verdict == Stale ==> Model() == old(Model())
      ensures plan.verdict == BehindBuffer ==> Model() == FailedWith(old(Model()), SnapshotBehindBuffer)
      ensures plan.verdict == Usable ==> Model() == Resumed(old(Model()), session, at, plan)
    {
      match plan.verdict {
        case Stale =>
        case BehindBuffer => phase := Failed(SnapshotBehindBuffer);
        case Usable => Resume(session, at, plan);
      }
    }

    method Resume(session: nat, at: nat, plan: Plan)
      requires Valid()
      modifies this, Parts()
      ensures Valid() && Model() == Resumed(old(Model()), session, at, plan)
    {
      TrimBuffer(plan.replay);
      Reposition(session, at, plan.resumeFrom);
      Settle(session, plan.resumeFrom, if plan.replay.IsEmpty() then Live else Replaying);
    }

    /** The client's own fields, once the components have moved. */
    method Settle(session: nat, resumeFrom: nat, phase: Phase)
      requires Valid()
      modifies this
      ensures Valid()
      ensures Model() == old(Model()).(phase := phase, reason := None, deliveredBefore := resumeFrom, wanted := EMPTY,
                                       session := session, started := true)
    {
      deliveredBefore := resumeFrom;
      this.session, started := session, true;
      wanted, reason := EMPTY, None;
      this.phase := phase;
    }

    /** Cuts the buffer down to what is to be replayed, and leaves it there. */
    method TrimBuffer(replay: Range)
      requires Healthy()
      modifies buffer, buffer.arena, buffer.index
      ensures Healthy()
      ensures Owned() == old(Owned()).(buffer := if replay.IsEmpty() then Replay.NOTHING_HELD
                                                 else Replay.DroppedBelow(old(Owned()).buffer, replay.first))
    {
      if replay.IsEmpty() {
        buffer.Clear();
      } else {
        var _ := buffer.DropBelow(replay.first);
      }
    }

    /** Tracker, requester and arbiter, which do not speak to one another, are each moved. */
    method Reposition(session: nat, at: nat, resumeFrom: nat)
      requires Healthy()
      modifies tracker, tracker.missing, tracker.missing.ranges, requester, requester.entries, arbiter
      ensures Healthy()
      ensures Owned() == Components(Arbiters.Adopted(Arbiters.STREAM_START, resumeFrom),
                                    Trackers.SnapshotTaken(old(Owned()).channel, session, at).0,
                                    Requesters.AfterFill(old(Owned()).entries, Range(0, resumeFrom)).entries,
                                    old(Owned()).buffer)
    {
      TakeSnapshot(session, at);
      ForgetRequests(resumeFrom);
      ResetArbiter();
      AdvanceArbiter(resumeFrom);
    }

    method FinishReplay() returns (result: Result<()>)
      requires Valid()
      modifies this, buffer
      ensures Valid()
      ensures (Model(), result) == Clients.FinishReplay(old(Model()))
    {
      if phase != Replaying {
        return Err(InvalidArgument);
      }
      ClearBuffer();
      phase := Live;
      return Ok(());
    }
  }
}
