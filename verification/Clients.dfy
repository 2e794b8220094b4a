/** The recovery client as a state machine: arbiter, tracker, requester and replay buffer given one
    order and one phase. Every operation is a function from state to state and answer; the class in
    ClientEngine.dfy carries them out step by step. */
module Clients {
  import opened Errors
  import opened Ranges
  import opened Snapshots
  import Arbiters
  import Policies = RetransmitPolicies
  import Replay = ReplayBuffers
  import Requesters
  import Trackers = GapTrackers

  datatype Phase = Synchronising | Live | Recovering | Replaying | Failed(why: Error)

  datatype Options = Options(policy: Policies.Policy, detect: bool, limits: Replay.Limits)

  datatype State = State(
    phase: Phase,
    reason: Option<Error>,
    arbiter: Arbiters.Position,
    channel: Trackers.Channel,
    entries: seq<Requesters.Entry>,
    buffer: Replay.Buffer,
    recovered: set<nat>,
    deliveredBefore: nat,
    wanted: Range,
    session: nat,
    started: bool)

  const NEW_CLIENT := State(
    Synchronising, None, Arbiters.STREAM_START, Trackers.NEW_CHANNEL, [], Replay.NOTHING_HELD, {}, 0, EMPTY, 0, false)

  datatype Report = Report(
    merge: Arbiters.Arbitration, accepted: Range, outcome: Trackers.Sequencing,
    gapOpened: Range, recovered: nat, held: bool)

  datatype Decision =
    | Idle
    | SendRequest(range: Range, attempt: nat)
    | RequestSnapshot(range: Range, why: Option<Error>)
    | Restart(failure: Error)

  function Escalated(c: State, why: Error, about: Range): State {
    c.(phase := Recovering, reason := Some(why), wanted := about, buffer := Replay.NOTHING_HELD)
  }

  function Restarted(c: State, session: nat): State {
    c.(phase := Synchronising, reason := None, arbiter := Arbiters.STREAM_START, entries := [],
       buffer := Replay.NOTHING_HELD, deliveredBefore := 0, wanted := EMPTY, session := session)
  }

  function FailedWith(c: State, why: Error): State {
    c.(phase := Failed(why))
  }

  predicate SessionChanges(c: State, session: nat) { c.started && session != c.session }

  /** The state a call is judged in: unchanged, or started over for a new session. */
  function Current(c: State, session: nat): State {
    if SessionChanges(c, session) then Restarted(c, session) else c
  }

  // ---- packets ------------------------------------------------------------------

  ghost function OnPacket(o: Options, c: State, session: nat, first: nat, count: nat, digest: nat, now: int): (State, Result<Report>)
    requires Policies.Valid(o.policy)
  {
    if c.phase.Failed? then (c, Err(c.phase.why))
    else if c.phase == Replaying then (c, Err(InvalidArgument))
    else Arbitrated(o, Current(c, session), session, SessionChanges(c, session), Range(first, first + count), digest, now)
  }

  /** The arbiter runs first. Holes of an earlier session are never repaired. */
  ghost function Arbitrated(o: Options, c: State, session: nat, changed: bool, arrived: Range, digest: nat, now: int): (State, Result<Report>)
    requires Policies.Valid(o.policy)
  {
    var (position, merged) := Arbiters.Offered(o.detect, c.arbiter, arrived, digest);
    if merged.Err? then (FailedWith(c.(arbiter := position), merged.error), Err(merged.error))
    else Judged(o, Noted(c, position, session, if changed then {} else c.channel.missing * Span(arrived)), arrived, merged.value, now)
  }

  /** A packet with messages of which none is new and none repairs anything goes no further. */
  ghost function Judged(o: Options, c: State, arrived: Range, merged: Arbiters.Merged, now: int): (State, Result<Report>)
    requires Policies.Valid(o.policy)
  {
    if !arrived.IsEmpty() && merged.deliver.IsEmpty() && c.recovered == {} then
      (c, Ok(Report(merged.outcome, merged.deliver, Trackers.InOrder, EMPTY, 0, false)))
    else
      Sequenced(o, c, arrived, merged, now)
  }

  /** The arbiter has decided; what the packet repairs is fixed before the holes close. */
  ghost function Noted(c: State, position: Arbiters.Position, session: nat, repaired: set<nat>): State {
    c.(arbiter := position, started := true, session := session, recovered := repaired)
  }

  /** The tracker's turn. */
  ghost function Sequenced(o: Options, c: State, arrived: Range, merged: Arbiters.Merged, now: int): (State, Result<Report>)
    requires Policies.Valid(o.policy)
  {
    var (channel, seen) := Trackers.Observed(c.channel, c.session, arrived.first, arrived.Count());
    Answered(o, c, channel, seen, merged, now)
  }

  /** Then the requester's. */
  ghost function Answered(o: Options, c: State, channel: Trackers.Channel, seen: Result<Trackers.Observation>,
                          merged: Arbiters.Merged, now: int): (State, Result<Report>)
    requires Policies.Valid(o.policy)
  {
    if seen.Err? then (Escalated(c.(channel := channel), seen.error, EMPTY), Err(seen.error))
    else
      var stepped := InStep(c, channel);
      var (entries, told) := Told(o, c.entries, seen.value, now);
      if !told then (Escalated(stepped.(entries := entries), CapacityExceeded, EMPTY), Err(CapacityExceeded))
      else Delivered(stepped.(entries := entries), merged, seen.value)
  }

  /** The arbiter's position follows the tracker's expectation. */
  ghost function InStep(c: State, channel: Trackers.Channel): State {
    c.(channel := channel, arbiter := Arbiters.Adopted(c.arbiter, channel.expected))
  }

  /** What the requester hears of an observation, and whether it had room. */
  function Told(o: Options, entries: seq<Requesters.Entry>, seen: Trackers.Observation, now: int): (seq<Requesters.Entry>, bool)
    requires Policies.Valid(o.policy)
  {
    if seen.outcome == Trackers.GapOpened then
      var r := Requesters.AfterGap(o.policy, entries, seen.range, now);
      (r.entries, r.complete)
    else if seen.outcome == Trackers.GapFilled && seen.recovered > 0 then
      var f := Requesters.AfterFill(entries, seen.range);
      (f.entries, f.accepted)
    else (entries, true)
  }

  ghost function Delivered(c: State, merged: Arbiters.Merged, seen: Trackers.Observation): (State, Result<Report>) {
    var phase := if c.phase == Synchronising then Live else c.phase;
    var held := phase == Recovering;
    (c.(phase := phase,
        deliveredBefore := if !held && merged.deliver.end > c.deliveredBefore then merged.deliver.end else c.deliveredBefore),
     Ok(Report(merged.outcome, merged.deliver, seen.outcome,
               if seen.outcome == Trackers.GapOpened then seen.range else EMPTY, |c.recovered|, held)))
  }

  // ---- the other calls ------------------------------------------------------------

  function BufferMessage(o: Options, c: State, sequence: nat, message: Replay.Bytes): (State, Result<()>)
    requires c.phase == Recovering
  {
    var (buffer, result) := Replay.Appended(o.limits, c.buffer, sequence, message);
    if result.Err? then (FailedWith(c.(buffer := buffer), result.error), result)
    else (c.(buffer := buffer), result)
  }

  function OnRetransmitRefused(c: State, range: Range, why: Error): (State, Result<()>) {
    if c.phase.Failed? then (c, Err(c.phase.why))
    else if why.IsFatal() then (Escalated(c, why, range), Ok(()))
    else (c, Ok(()))
  }

  function Poll(o: Options, c: State, now: int): (State, Decision)
    requires Policies.Valid(o.policy)
  {
    match c.phase
    case Failed(why) => (c, Restart(why))
    case Replaying => (c, Idle)
    case Recovering => (c, RequestSnapshot(c.wanted, c.reason))
    case _ =>
      var polled := Requesters.AfterPoll(o.policy, c.entries, now);
      var after := c.(entries := polled.entries);
      match polled.decision
      case Send(range, attempt) => (after, SendRequest(range, attempt))
      case Abandon(range, why) => (Escalated(after, why, range), RequestSnapshot(range, Some(why)))
      case Idle => (after, Idle)
  }

  ghost function OnSnapshot(c: State, session: nat, at: nat): (State, Result<Plan>) {
    if c.phase.Failed? then (c, Err(c.phase.why))
    else
      var current := Current(c, session);
      var plan := PlanSnapshot(at, current.buffer.Buffered(), current.deliveredBefore);
      match plan.verdict
      case Stale => (current, Ok(plan))
      case BehindBuffer => (FailedWith(current, SnapshotBehindBuffer), Ok(plan))
      case Usable => (Resumed(current, session, at, plan), Ok(plan))
  }

  /** A usable snapshot re-establishes every position. */
  ghost function Resumed(c: State, session: nat, at: nat, plan: Plan): State {
    State(
      if plan.replay.IsEmpty() then Live else Replaying,
      None,
      Arbiters.Adopted(Arbiters.STREAM_START, plan.resumeFrom),
      Trackers.SnapshotTaken(c.channel, session, at).0,
      Requesters.AfterFill(c.entries, Range(0, plan.resumeFrom)).entries,
      if plan.replay.IsEmpty() then Replay.NOTHING_HELD else Replay.DroppedBelow(c.buffer, plan.replay.first),
      c.recovered,
      plan.resumeFrom,
      EMPTY,
      session,
      true)
  }

  function FinishReplay(c: State): (State, Result<()>) {
    if c.phase != Replaying then (c, Err(InvalidArgument))
    else (c.(phase := Live, buffer := Replay.NOTHING_HELD), Ok(()))
  }
}
