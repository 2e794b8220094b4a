# Verification of the recovery engine

A Dafny model of the market-data client's recovery engine and of the data structures it rests on, with
machine-checked proofs of what the design promises about them. Message sequence numbers count messages, as in
the Nasdaq MoldUDP64 Protocol Specification V1.00 (downstream packet header, heartbeats and end of session): a
heartbeat carries no message and the next sequence number.

Every component is modelled twice: as a value with functions (the specification) and, where the source changes
state in place, as a class whose methods follow the source's branches and loops and are proved to compute the
specification. The properties are then proved about the specification, over whole runs.

## The parts

| file | what it models |
|---|---|
| `Ranges.dfy` | half-open ranges, merging and subtracting, read as sets of numbers |
| `GapSets.dfy` | the bounded, sorted array of missing ranges, refining a set of numbers |
| `GapTrackers.dfy` | gap detection on one channel, with its tallies |
| `RetransmitPolicies.dfy` | configuration and integer backoff |
| `Requesters.dfy`, `Schedules.dfy` | what is being asked for, when, how often, and when it is given up |
| `ReplayBuffers.dfy` | the byte arena and index, refining a list of messages |
| `Snapshots.dfy` | classifying a snapshot |
| `Arbiters.dfy` | first copy wins over redundant lines, with the digest ring |
| `Clients.dfy`, `ClientEngine.dfy`, `ClientAnswers.dfy` | the client as a state machine, the class that carries it out, and what its calls answer |
| `ClientLedgers.dfy`, `ClientRuns.dfy` | the ledger of what was handed over, the invariant, and whole runs |
| `Rejoining.dfy` | a session left and joined again, counted over all its stays |
| `SnapshotSafety.dfy`, `SnapshotRuns.dfy` | exactly when a snapshot may be applied, and two runs in which it may not |
| `RetransmitFacilities.dfy`, `RetransmitRepairs.dfy`, `RepairLoops.dfy` | the venue's retransmission window, an answer fed to the client, and the loop of asking and answering |
| `SpscRings.dfy`, `Publishers.dfy`, `PublishedRings.dfy` | the thread boundary, in-order publication, and the two together step by step |
| `OrderLevelBooks.dfy`, `OrderHistories.dfy`, `OrderBooks.dfy` | the hash book and what it holds by its messages, and the sorted price sides, refining maps |
| `Pipelines.dfy`, `EndToEnd.dfy`, `RepairedBooks.dfy` | the reorder buffer in front of the book, the book at the end of the line, and loss, repair and book in one run |
| `Rngs.dfy`, `Shuffles.dfy` | bounded draws, seeding and shuffling |
| `Errors.dfy`, `Arithmetic.dfy` | error codes and results; facts about division |

## Main results

1. **Every message once, or recorded as missing** (`ClientRuns.EveryMessageOnceOrMissing`). In every run of
   packets, polls, refused requests, snapshots and replays, whatever the losses, duplicates, reorderings, refused
   calls, escalations and session changes, the sets handed downstream since the session was last joined are pairwise
   disjoint, the new and the repaired part of one packet included. Those handed over since the era began, by joining
   or by the last snapshot applied, are with the holes exactly the numbers from its start to the expectation, and
   those handed over before lie below it. The arbiter's watermark equals the tracker's expectation whenever the
   client is live, heartbeats included. Over all stays in a session, what a packet hands over again is exactly what it
   hands over of an earlier stay (`Rejoining.TwiceExactlyFromEarlierStays`).
2. **The repaired book is the book of the feed without loss** (`EndToEnd.BookIsLossFree`,
   `EndToEnd.RepairedBookIsWhole`), for any loss, duplication and reordering of one session's feed, up to the
   lowest hole. With the repair loop at the end of the run there is none: client, venue and book together are
   `RepairedBooks.LossIsRepaired`.
3. **Exactly when a snapshot is safe** (`SnapshotSafety.SnapshotSafeExactly`). From any phase of a healthy client: some
   packet that comes next, of whatever session, hands a message over again or drops one that was not handed over, if
   and only if the snapshot fails the check a caller can make and, if it is another session's, a hole is outstanding
   or something of the old session is exposed. Where the client takes a packet for the first of a session and the
   tracker for one more, it counts as harm only if it is harm under either reading.
4. **A venue that still holds what was lost repairs all of it** (`RepairLoops.LoopRepairsEverything`,
   `RepairLoops.LoopRepairsWhatIsDue`): polling and feeding the answers back ends with nothing missing but what is not
   yet due to be asked for, in no more rounds than there are requests outstanding, so within the limit the source puts
   on the loop (`RepairLoops.StepsSuffice`). No packet of an answer to the client's own request is refused, whatever
   its holes, unless it contradicts a packet the client remembers.
5. **The ring is first in, first out under every interleaving of single steps** and every stale load, without a
   race on a slot (`SpscRings.PoppedIsPrefixOfPushed`, `SpscRings.NoRace`).
6. **What is published is in order, and stays so however far the caller carries on, exactly when no drain was
   refused** (`Publishers.InOrderForEverExactly`): whenever the ring took the next message it had room for every
   message held right behind it. With the ring's own steps inside each call, publisher and ring are sound at every
   instant exactly when no number still held is offered into the ring (`PublishedRings.EveryInterleaving`); no call
   stopped while draining is enough for that, and then the consumer sees the feed in order at every instant
   (`PublishedRings.KeepingUpIsInOrder`).
7. **Bounded draws are exactly uniform** (`Rngs.ExactlyUniform`), and a shuffle of distinct items reaches every
   order by exactly one list of draws (`Shuffles.DrawsAreOrders`, `Shuffles.EveryOrderHasDraws`).
8. **The report of every packet says exactly what became of the holes and the messages** (`ClientAnswers.PacketAnswers`),
   and the other calls answer by where the client stands (`ClientAnswers.StaleExactly`, `ClientAnswers.UsableSnapshot`,
   `ClientAnswers.PollAnswers`).
9. **Every missing message is asked for on schedule**: not before the settle delay (`Schedules.FirstRequest`), again
   exactly when the last attempt's wait is over (`Schedules.NextAttemptIsDueExactly`), and given up for want of an answer
   after exactly as many attempts as the policy allows (`Schedules.TimedOutAfterEveryAttempt`).
10. **A book is what its accepted messages say**: every order by the message that filed it, what was taken since and the
    add it goes back to (`OrderHistories.BookIsItsHistory`), every price level by the last update on its side
    (`OrderBooks.EachSideHoldsItsLast`).

## Where the code does not do what is said of it

Each of these keeps the code as it is, shows an input that fails, and says exactly when the promise holds.

- **Snapshots inside a session.** `on_snapshot` may move the arbiter back while the tracker's expectation stays.
  Applied below that expectation, from whatever phase, a snapshot spoils every number from the resume point to the
  expectation (`SnapshotSafety.UnlawfulSnapshotMiscounts`): those still missing are handed over twice by the packet
  that carries them, which is always accepted, and the others are lost, for ever once a heartbeat has passed
  (`SnapshotSafety.LostThroughout`). Both are reachable: after a heartbeat announced a jump
  (`SnapshotRuns.DoubleCountIsReachable`), and after a second escalation dropped what a recovering client had
  buffered (`SnapshotRuns.LossIsReachable`). The whole-run theorems carry the check as the named hypothesis
  `LawfulRun`.
- **A new session's snapshot at 0** is judged stale only after the client moved to the session, and the tracker
  stays in the old one. If a hole was left, the new session's packet with that number is never refused and hands it
  over twice (`SnapshotSafety.ZeroSnapshotCountsTwice`); with no hole, the packets of the new session, and of any third,
  are all counted right (`SnapshotSafety.NewSessionSafeExactly`, `SnapshotSafety.ZeroSnapshotCountsItsOwn`). A late
  packet of the old session is then accepted whole: it hands over again a message handed over before, and if it is
  taken to begin an era, the message behind it is neither missing nor handed over
  (`SnapshotSafety.ZeroSnapshotExposed`). What remains safe is a session of which everything was accounted for and
  nothing, or only the newest message expected, was handed over (`SnapshotSafety.ZeroSnapshotUnexposed`,
  `SnapshotSafety.ExposedWhenLive`).
- **A session left and joined again** is a new one to the client: the packet that joins it, a late packet after a
  rollover say, is accepted whole, and the holes of the earlier stay are forgotten (`Rejoining.JoiningTakesAll`). So
  whatever was handed over under a session is handed over again by a late packet of it
  (`Rejoining.RejoiningHandsOverAgain`); three packets do it (`Rejoining.RejoiningIsReachable`). In any run numbers
  are handed over twice exactly when a packet hands over what an earlier stay did
  (`Rejoining.TwiceExactlyFromEarlierStays`).
- **A refused drain cannot be recovered from.** When a full ring stops a drain, the next message is already held.
  From then on the publisher publishes nothing more unless that message is offered again
  (`Publishers.NothingMoreWithoutReoffer`); offering it again publishes it and leaves its copy behind, which goes out
  under a wrong number within a window's worth of messages (`Publishers.DoomedGoesWrong`,
  `Publishers.ReofferPublishesTwice`). A direct push that is refused is harmless (`Publishers.KeepingUpIsEnough`).
- **A retransmission window with a break in it.** A packet refused for its size leaves one, and an answer across it
  names messages that were not emitted (`RetransmitFacilities.AnswerCanBeFalse`). An answer is true of what was emitted
  if and only if no break of the window lies inside the request (`RetransmitFacilities.AnswerIsTrueExactly`), which a
  request for messages that are all held never meets (`RetransmitFacilities.HeldIsUnbroken`). The source asserts that
  the ranges it merges touch; here they are joined as it joins them when assertions are off.
- **Backoff can shrink.** The division truncates: 5 scaled by 4/3 is 4 (`RetransmitPolicies.TruncationCanShrink`).
  Waits never decrease exactly when the first one is the ceiling or its first step does not shrink
  (`RetransmitPolicies.NeverDecreasesExactly`).
- **Joining late.** The reorder buffer starts at message 1, so a client that joined above it has an empty book for
  ever, though it is missing nothing (`EndToEnd.JoiningLateStaysEmpty`); with no hole left the book is whole if and only
  if the first packet began at 1 or below (`EndToEnd.RepairedBookIsWhole`).

## Assumptions

- Sequence numbers, times and counters do not wrap; the source does not check `first_sequence + message_count`.
  The hash, the generator's words and the multiply-shift are modelled at 64 bits.
- A caller told that messages are held for replay hands over exactly the accepted range, at once, message by
  message (`ClientLedgers.Offer`).
- In the repair loop all polls and answers of one loop happen at one time, as in the source.
- In the end-to-end theorems the venue published every message from 1 on, and packets carry nothing else
  (`EndToEnd.FullFeed`).

## Model

| member | source | states |
|---|---|---|
| `Ranges.MergeExact` | include/dfr/recovery/gap.hpp:89-101 | merging ranges that touch denotes their union |
| `Ranges.MergeableExactlyWhenTouching` | include/dfr/recovery/gap.hpp:89-101 | the asserted precondition is exact: some range denotes the union of two non-empty ranges if and only if they touch |
| `Ranges.SubtractExact` | include/dfr/recovery/gap.hpp:122-136 | the two remainders are disjoint and together are the set difference |
| `Ranges.PredicatesMeanSets` | include/dfr/recovery/gap.hpp:34-68 | covers, overlaps and empty are inclusion, intersection and emptiness of the sets |
| `GapSets.CanonicalMeansSorted` | include/dfr/recovery/gap_set.hpp:244-254 | the recursive canonical form is what the source checks: non-empty, sorted, no two ranges adjacent |
| `GapSets.CanonicalLength` | include/dfr/recovery/gap_set.hpp:244-254 | a canonical list has as many ranges as its set has maximal runs, so the capacity test is about the set |
| `GapSets.CanonicalUnique` | include/dfr/recovery/gap_set.hpp:244-254 | one set has one canonical form |
| `GapSets.CanonicalExists` | include/dfr/recovery/gap_set.hpp:244-254 | every finite set has a canonical form |
| `GapSets.AbsorbExact` | include/dfr/recovery/gap_set.hpp:104-138 | absorbing every range that touches the hole leaves canonical ranges apart from it that with it denote the same union |
| `GapSets.PiecesExact` | include/dfr/recovery/gap_set.hpp:145-189 | cutting a filled range out of every hole is set difference and stays canonical |
| `GapSets.GapSet.Oldest` | include/dfr/recovery/gap_set.hpp:57-60 | the whole first run: its start is the least missing number, its end is not missing |
| `GapSets.GapSet.TotalMissing` | include/dfr/recovery/gap_set.hpp:62-68 | the number of missing messages |
| `GapSets.GapSet.Intersect` | include/dfr/recovery/gap_set.hpp:80-98 | the canonical form of the missing numbers that arrived, never too long |
| `GapSets.GapSet.Open` | include/dfr/recovery/gap_set.hpp:104-138 | union; refused, with nothing changed, exactly when the union has more than 16 runs |
| `GapSets.GapSet.InsertSorted` | include/dfr/recovery/gap_set.hpp:229-240 | the in-place shift inserts at the sorted place |
| `GapSets.GapSet.Fill` | include/dfr/recovery/gap_set.hpp:145-189 | difference, with the exact number repaired; refused, with nothing changed, exactly when the difference has more than 16 runs |
| `GapSets.GapSet.DiscardBelow` | include/dfr/recovery/gap_set.hpp:203-224 | truncation, with the exact number abandoned |
| `GapTrackers.RunIsExact` | include/dfr/recovery/gap_tracker.hpp:51-133 | over any run of packets, session changes and snapshots: holes are exactly floor to expectation minus what arrived, and missed = recovered + abandoned + still missing |
| `GapTrackers.ObservedAgain` | include/dfr/recovery/gap_tracker.hpp:51-90 | within a session: an accepted packet closes what it carries and opens what it skipped, a refused one changes neither holes nor expectation |
| `GapTrackers.ObservedAnew` | include/dfr/recovery/gap_tracker.hpp:51-90 | the first packet of a session starts with no holes and is never refused; it establishes the first session and resets to any other |
| `GapTrackers.ObservationSays` | include/dfr/recovery/gap_tracker.hpp:51-90 | what an accepted packet's observation names is what the holes before and after it show: gap opened with its range, filled with its count, duplicate, established, reset |
| `GapTrackers.PacketTally` | include/dfr/recovery/gap_tracker.hpp:51-90 | every tally of a packet in terms of the holes before and after it |
| `GapTrackers.SnapshotTally` | include/dfr/recovery/gap_tracker.hpp:108-133 | a snapshot returns and counts exactly the holes it gives up |
| `GapTrackers.AdvanceConserves` | include/dfr/recovery/gap_tracker.hpp:171-213 | opening and closing holes keep the tallies in balance, error returns included |
| `GapTrackers.SnapshotConserves` | include/dfr/recovery/gap_tracker.hpp:108-133 | a snapshot counts every hole it gives up as abandoned |
| `GapTrackers.GapTracker.Observe` | include/dfr/recovery/gap_tracker.hpp:51-90 | the branches compute the uniform rule |
| `GapTrackers.GapTracker.OpenGap` | include/dfr/recovery/gap_tracker.hpp:171-185 | the branch for a packet ahead of the expectation |
| `GapTrackers.GapTracker.HandleBehind` | include/dfr/recovery/gap_tracker.hpp:190-213 | the branch for a packet behind it: duplicate or repair, by what was missing |
| `GapTrackers.GapTracker.SnapshotAt` | include/dfr/recovery/gap_tracker.hpp:108-133 | a snapshot drops the holes below it and never lowers the expectation within a session |
| `RetransmitPolicies.TimeoutFor` | include/dfr/recovery/retransmit_policy.hpp:109-127 | the loop with early exit computes the capped recursive wait |
| `RetransmitPolicies.ProductsBounded` | include/dfr/recovery/retransmit_policy.hpp:109-127 | no intermediate product exceeds the one formed from the ceiling, however many attempts |
| `RetransmitPolicies.IntegerRatioClosedForm` | include/dfr/recovery/retransmit_policy.hpp:109-127 | with denominator 1 the wait is min(ceiling, first * ratio^(attempt-1)) |
| `RetransmitPolicies.NeverDecreasesExactly` | include/dfr/recovery/retransmit_policy.hpp:79-127 | waits never decrease if and only if the first is the ceiling or the first step makes up for the truncation |
| `RetransmitPolicies.TruncationCanShrink` | include/dfr/recovery/retransmit_policy.hpp:120 | a validated policy whose second wait is shorter than its first |
| `Requesters.EntriesDisjoint` | include/dfr/recovery/requester.hpp:168-197 | no message is in two entries |
| `Requesters.GapIsCovered` | include/dfr/recovery/requester.hpp:75-91 | any hole is covered exactly, whatever is already asked for; a refusal covers part of it and takes nothing away |
| `Requesters.GapKeepsSound` | include/dfr/recovery/requester.hpp:75-91 | a hole of which nothing is asked for yet leaves entries disjoint, non-empty and no wider than a request |
| `Requesters.SmallGapFits` | include/dfr/recovery/requester.hpp:75-91 | a hole of no more messages than there are free entries is always taken, however it is chunked |
| `Requesters.FillIsExact` | include/dfr/recovery/requester.hpp:100-136 | what arrives stops being asked for exactly; a refusal changes nothing |
| `Requesters.CutNoLonger` | include/dfr/recovery/requester.hpp:100-136 | only an entry reaching past what arrived on both sides makes the list longer |
| `Requesters.RunsOfCover` | include/dfr/recovery/requester.hpp:168-197 | the entries cover no more runs than there are entries, so a list that fits means holes that fit |
| `Requesters.PollKeepsSound` | include/dfr/recovery/requester.hpp:145-151 | a decision names something being asked for, within one request, at an attempt from 1 to the maximum |
| `Requesters.RetriesAreSpaced` | include/dfr/recovery/requester.hpp:247-270 | over any run of polls without news, a message just asked for is not asked for again before that attempt's wait is over |
| `Requesters.PollingTerminates` | include/dfr/recovery/requester.hpp:200-270 | any run of polls without news makes at most the sum of (max attempts - attempts + 1) decisions |
| `Requesters.ExpiredDrains` | include/dfr/recovery/requester.hpp:200-245 | once everything has outlived the retention window, one poll per entry gives all of it up |
| `Schedules.GapStartsOver` | include/dfr/recovery/requester.hpp:168-197 | every entry a gap leaves is one that was there, or starts at no attempts, due when the settle delay is over, as old as what it grew from |
| `Schedules.GapKeepsAges` | include/dfr/recovery/requester.hpp:160-186 | no entry that was there is lost or counts as younger |
| `Schedules.GapSetsTheClock` | include/dfr/recovery/requester.hpp:71-91 | no number of a new hole has been attempted, and none is due before the settle delay is over |
| `Schedules.AdmitsExactly` | include/dfr/recovery/requester.hpp:168-197 | a chunk takes a new entry only when it fits one request with no entry it touches, and is refused only when there is no room for one |
| `Schedules.FillLeavesTheClock` | include/dfr/recovery/requester.hpp:100-136 | what is left of a request keeps its attempts and times, both halves of a split included |
| `Schedules.PollMovesTheClock` | include/dfr/recovery/requester.hpp:200-270 | for any number asked for: idle only before its next attempt is due; sent only when due, as the next attempt, and then due again after that attempt's wait; given up only out of the window or after the last wait, for that reason |
| `Schedules.FirstRequest` | include/dfr/recovery/requester.hpp:71-91 | a hole found with nothing outstanding: any polls before the settle delay do nothing, the first one after it asks for the lowest request's worth as attempt 1 |
| `Schedules.TimedOutAfterEveryAttempt` | include/dfr/recovery/requester.hpp:229-245 | over any run of polls and fills: the attempt named is the count of sends, and timing out means exactly the policy's maximum of them |
| `Schedules.NextAttemptIsDueExactly` | include/dfr/recovery/requester.hpp:247-270 | over any such run: not asked for again before that attempt's wait is over, and no poll is idle from then on |
| `Schedules.OldestFirst` | include/dfr/recovery/requester.hpp:200-270 | of what is due the oldest is sent, of what is hopeless the oldest given up, and nothing is sent while anything is hopeless |
| `Requesters.Requester.OnGap` | include/dfr/recovery/requester.hpp:75-91 | the chunking loop computes the specification |
| `Requesters.Requester.Admit` | include/dfr/recovery/requester.hpp:168-197 | merging into the first joinable entry, or a new one, or a refusal |
| `Requesters.Requester.OnFilled` | include/dfr/recovery/requester.hpp:100-136 | the two-pass rewrite computes the specification |
| `Requesters.Requester.Poll` | include/dfr/recovery/requester.hpp:145-151 | abandonment before sending, attempts and next times updated as specified |
| `Requesters.Requester.FindOldest` | include/dfr/recovery/requester.hpp:200-270 | the scan finds the oldest eligible entry, the first of equals |
| `Requesters.Requester.RemoveAt` | include/dfr/recovery/requester.hpp:272-278 | the shift removes one entry and keeps the others in order |
| `ReplayBuffers.CompactionKeeps` | include/dfr/recovery/replay_buffer.hpp:123-147 | sliding the arena and rebasing the index keeps every remaining message byte for byte |
| `ReplayBuffers.AppendAnswers` | include/dfr/recovery/replay_buffer.hpp:83-114 | taken, ignored, gap or overflow by where the number lies and whether there is room; what was held stays, and only an append holds more |
| `ReplayBuffers.DropAnswers` | include/dfr/recovery/replay_buffer.hpp:123-147 | exactly what lies at or above the number stays, message for message |
| `ReplayBuffers.ReplayBuffer.Append` | include/dfr/recovery/replay_buffer.hpp:83-114 | extends the list by one, ignores what is below its end, refuses a hole or an overflow without change |
| `ReplayBuffers.ReplayBuffer.DropBelow` | include/dfr/recovery/replay_buffer.hpp:123-147 | removes exactly the lower prefix and counts it |
| `ReplayBuffers.ReplayBuffer.Replay` | include/dfr/recovery/replay_buffer.hpp:154-159 | hands over every message in order under its number |
| `ReplayBuffers.ReplayBuffer.At` | include/dfr/recovery/replay_buffer.hpp:162-169 | the message of that number, or an error exactly when it is not held |
| `Snapshots.UsableExactlyWhenNothingIsMissing` | include/dfr/recovery/snapshot.hpp:131-172 | usable if and only if snapshot and buffer leave no number uncovered; otherwise the plan names exactly those in neither |
| `Snapshots.UsablePlanIsComplete` | include/dfr/recovery/snapshot.hpp:131-172 | a usable plan accounts for every number below the resume point once, and for every buffered number |
| `Arbiters.FirstCopyWins` | include/dfr/recovery/arbiter.hpp:67-109 | what is delivered is exactly what lies at or above the watermark, and the watermark moves to its end; the answer says whether it is all, some or none of the packet |
| `Arbiters.NovelExact` | include/dfr/recovery/arbiter.hpp:210-219 | the new part of a packet is the set at or above the watermark |
| `Arbiters.RunRemembers` | include/dfr/recovery/arbiter.hpp:129-145 | after any run of offers, adoptions and resets the ring holds the last offers with messages accepted since the reset |
| `Arbiters.AgreeingLinesNeverDiverge` | include/dfr/recovery/arbiter.hpp:228-248 | over any run, lines carrying equal content are never refused, in any interleaving |
| `Arbiters.DivergenceIsCaught` | include/dfr/recovery/arbiter.hpp:228-248 | over any run, other content for the range of any of the last 64 accepted packets with messages is refused |
| `Arbiters.Arbiter.Offer` | include/dfr/recovery/arbiter.hpp:67-109 | the class computes the specification, digest ring included |
| `Arbiters.Arbiter.Remember` | include/dfr/recovery/arbiter.hpp:239-248 | the overwriting ring is the list of the most recent digests |
| `ClientEngine.Client.OnPacket` | include/dfr/recovery/client.hpp:93-201 | the composed call computes the state machine's step |
| `ClientEngine.Client.BufferMessage` | include/dfr/recovery/client.hpp:205-218 | a refused message fails the client |
| `ClientEngine.Client.OnRetransmitRefused` | include/dfr/recovery/client.hpp:222-231 | a fatal reason escalates, another is left to the schedule |
| `ClientEngine.Client.Poll` | include/dfr/recovery/client.hpp:238-274 | the decision and the state it leaves |
| `ClientEngine.Client.OnSnapshot` | include/dfr/recovery/client.hpp:281-339 | the three verdicts carried out on all four components |
| `ClientEngine.Client.FinishReplay` | include/dfr/recovery/client.hpp:346-353 | back to live with an empty buffer, refused when not replaying |
| `ClientEngine.Client.Escalate` | include/dfr/recovery/client.hpp:359-365 | recovering, with nothing buffered and the reason kept |
| `ClientEngine.Client.RestartForNewSession` | include/dfr/recovery/client.hpp:367-376 | every position of the old session is dropped, the tracker's holes excepted |
| `ClientAnswers.PacketAnswers` | include/dfr/recovery/client.hpp:93-201 | for every accepted packet of a healthy client, by the states before and after: gap opened, outcome, repairs, what is new, whether held, phase and delivery position |
| `ClientAnswers.RefusedPacket` | include/dfr/recovery/client.hpp:93-201 | which error a refused packet gets and where it leaves the client |
| `ClientAnswers.StaleExactly` | include/dfr/recovery/client.hpp:281-298 | stale if and only if it covers no more than was delivered in the session, and then nothing changes |
| `ClientAnswers.UsableSnapshot` | include/dfr/recovery/client.hpp:310-339 | live if and only if nothing buffered lies at or above it, otherwise replaying exactly that, from the resume point |
| `ClientAnswers.SnapshotOfTheFailed` | include/dfr/recovery/client.hpp:283-285 | a failed client takes no snapshot and says why |
| `ClientAnswers.PollAnswers` | include/dfr/recovery/client.hpp:256-273 | a request is passed on; what is given up is asked for as a snapshot with its range and reason, at that poll and every later one |
| `ClientAnswers.WaitingPollAnswers` | include/dfr/recovery/client.hpp:239-254 | restart with the failure, wait for a replay, or repeat the snapshot request |
| `ClientAnswers.RefusalAnswers` | include/dfr/recovery/client.hpp:222-231 | a fatal refusal asks for a snapshot of the range, any other changes nothing |
| `ClientAnswers.AgedOutNeedsASnapshot` | include/dfr/venue/retransmit_facility.hpp:123-150 | facility and client: a request whose start has aged out ends in a snapshot of it, one that is too long does not |
| `ClientAnswers.FinishAnswers` | include/dfr/recovery/client.hpp:346-353 | live with an empty buffer, or refused |
| `ClientAnswers.BufferingAnswers` | include/dfr/recovery/client.hpp:205-218 | which failure a message that cannot be held leaves, and that the buffer stays as it was |
| `ClientLedgers.BalanceStep` | include/dfr/recovery/client.hpp:93-201 | one packet: what is new and what is repaired are disjoint, neither was handed over before, and with the holes they still divide the era |
| `ClientLedgers.LedgerContinues` | include/dfr/recovery/client.hpp:93-201 | both join the session's deliveries as sets of their own, and all of these stay pairwise disjoint |
| `ClientLedgers.OfferKeeps` | include/dfr/recovery/client.hpp:93-218 | every packet, accepted or refused, with the buffering the caller owes, keeps the invariant and hands nothing over twice |
| `ClientLedgers.PollKeeps` | include/dfr/recovery/client.hpp:238-274 | a poll keeps the invariant and requests only missing messages, one request wide |
| `ClientLedgers.RefusedKeeps` | include/dfr/recovery/client.hpp:222-231 | a refused request keeps the invariant |
| `ClientLedgers.UsableKeeps` | include/dfr/recovery/client.hpp:281-339 | a lawful usable snapshot leaves watermark = expectation = delivery position = resume point, no hole, no request, and a buffer that is exactly [snapshot, resume point) when there is something to replay |
| `ClientLedgers.EarlierIsCovered` | include/dfr/recovery/client.hpp:281-339 | a lawful snapshot within a session covers everything handed over so far, so none of it is replayed or handed over again |
| `ClientLedgers.SnapshotKeeps` | include/dfr/recovery/client.hpp:281-339 | a lawful snapshot call keeps the invariant whatever its verdict |
| `ClientLedgers.GapToBufferFails` | include/dfr/recovery/client.hpp:281-339 | a snapshot behind the buffer fails the client and names exactly the numbers in neither |
| `ClientLedgers.FinishKeeps` | include/dfr/recovery/client.hpp:346-353 | finishing hands over exactly what was buffered and keeps the invariant |
| `ClientLedgers.DisjointPair` | include/dfr/recovery/client.hpp:115-200 | pairwise disjointness of the ledger, for any two deliveries |
| `ClientRuns.RunKeeps` | include/dfr/recovery/client.hpp:93-376 | the invariant holds after every lawful run |
| `ClientRuns.EveryMessageOnceOrMissing` | include/dfr/recovery/client.hpp:115-200 | in every lawful run, since the session was last joined: what was handed over is pairwise disjoint; what was handed over in the era is with the holes exactly its numbers up to the expectation, what was handed over before lies below it; the arbiter stands at the expectation |
| `ClientRuns.RequestsNameOnlyMissing` | fuzz/client_invariants.hpp:138-154 | in every reachable state a request names only missing messages, and while live every missing message is being asked for |
| `ClientRuns.RecoveryKeepsAsking` | include/dfr/recovery/client.hpp:246-253 | while recovering, accepted packets are held and every poll repeats the escalation's range and reason |
| `ClientRuns.FailureIsFinal` | fuzz/client_invariants.hpp:98-99 | no event leaves the failed state, and every poll says so |
| `ClientRuns.DeliveryNeverRetreats` | fuzz/client_invariants.hpp:88-94 | within a session no event lowers the delivery position |
| `ClientRuns.NothingBeyondTheFeed` | fuzz/client_invariants.hpp:95-121 | no position passes what the feed and its snapshots reached |
| `Rejoining.StaysAddUp` | include/dfr/recovery/client.hpp:107-113 | in every lawful run, everything ever handed over under the client's session is what earlier stays handed over and what the ledger records |
| `Rejoining.TwiceExactlyFromEarlierStays` | include/dfr/recovery/client.hpp:107-113 | what an accepted packet hands over again is exactly what it hands over of earlier stays in its session |
| `Rejoining.JoiningTakesAll` | include/dfr/recovery/client.hpp:107-145 | the packet that joins a session is accepted whole and leaves no hole, whatever the session handed over before |
| `Rejoining.RejoiningHandsOverAgain` | include/dfr/recovery/client.hpp:107-145 | after any run, a late packet of another session hands over all it carries |
| `Rejoining.RejoiningIsReachable` | include/dfr/recovery/client.hpp:107-113 | two messages, another session, and the same two messages again: both are handed over twice |
| `SnapshotSafety.SnapshotSafeExactly` | include/dfr/recovery/client.hpp:281-339 | some next packet hands a message over again or drops one if and only if the snapshot fails the caller's check and, for another session, a hole is outstanding or the old session is exposed |
| `SnapshotSafety.NewSessionSafeExactly` | include/dfr/recovery/client.hpp:289-300 | among the new session's own packets, one is counted wrongly if and only if the snapshot is at 0 and the old session left a hole |
| `SnapshotSafety.HealthyCounts` | include/dfr/recovery/client.hpp:93-201 | a healthy client counts every packet right |
| `SnapshotSafety.UnlawfulSnapshotMiscounts` | include/dfr/recovery/client.hpp:324-331 | from any phase, each number from the resume point to the expectation is handed over twice by an accepted packet or lost |
| `SnapshotSafety.ResentCountsTwice` | include/dfr/recovery/client.hpp:133-154 | the packet of those numbers is never refused, and reports every missing one both as new and as repaired |
| `SnapshotSafety.LostForEver` | include/dfr/recovery/client.hpp:115-200 | a lost number stays lost under any accepted packet of the session, one that carries it included |
| `SnapshotSafety.LostThroughout` | include/dfr/recovery/client.hpp:115-200 | the same over any run of them |
| `SnapshotRuns.DoubleCountIsReachable` | include/dfr/recovery/client.hpp:281-339 | two packets, a snapshot and a third packet hand five messages over twice |
| `SnapshotRuns.LossIsReachable` | include/dfr/recovery/client.hpp:222-231 | a run that recovers, escalates again and applies a snapshot loses a message never handed over in the session |
| `SnapshotSafety.ZeroSnapshotCountsTwice` | include/dfr/recovery/client.hpp:289-300 | a new session's snapshot at 0 leaves old holes, and the first packet with such a number is accepted and counts it twice |
| `SnapshotSafety.ZeroSnapshotCountsItsOwn` | include/dfr/recovery/client.hpp:289-300 | with no hole left, no packet of the new session or of a third one is counted wrongly |
| `SnapshotSafety.ZeroSnapshotExposed` | include/dfr/recovery/client.hpp:107-113 | with no hole left, a late message of the old session is handed over again, and the one behind it lost if that begins an era |
| `SnapshotSafety.ZeroSnapshotUnexposed` | include/dfr/recovery/client.hpp:107-113 | and no packet of the old session does harm when nothing of it is exposed |
| `SnapshotSafety.ExposedWhenLive` | include/dfr/recovery/client.hpp:281-300 | for a live client with no hole that is: nothing, or only the newest message it expects, was handed over |
| `RetransmitFacilities.WindowIsNewest` | include/dfr/venue/retransmit_facility.hpp:92-115 | after any stream the window is the last of the keepable packets, as many as fit, oldest first |
| `RetransmitFacilities.RecordingKeepsOrder` | include/dfr/venue/retransmit_facility.hpp:92-115 | recording the next packet keeps the window in order, and without a break when nothing lies between, eviction included |
| `RetransmitFacilities.AvailableExactly` | include/dfr/venue/retransmit_facility.hpp:80-86 | everything in the available range is held if and only if the window has no break |
| `RetransmitFacilities.AnswerCoversWhatIsHeld` | include/dfr/venue/retransmit_facility.hpp:123-166 | breaks or not, an answer emits every wanted message that is held; refusal exactly when too much is asked or the start has aged out, each with its error |
| `RetransmitFacilities.EmittedUnbrokenExactly` | include/dfr/venue/retransmit_facility.hpp:152-165 | the packets emitted follow one another if and only if no break of the window lies inside the request |
| `RetransmitFacilities.AnswerIsTrueExactly` | include/dfr/venue/retransmit_facility.hpp:152-166 | the range returned names exactly what was emitted if and only if no break of the window lies inside the request |
| `RetransmitFacilities.AnswerCanBeFalse` | include/dfr/venue/retransmit_facility.hpp:99-166 | three packets, the middle one refused for its size: the answer names all three messages and one was not emitted |
| `RetransmitFacilities.HeldIsUnbroken` | include/dfr/venue/retransmit_facility.hpp:152-166 | a request for messages that are all held meets no break |
| `RetransmitFacilities.AnswerHasNoBreak` | include/dfr/venue/retransmit_facility.hpp:152-166 | a window without a break gives answers without one |
| `RetransmitFacilities.MergesTouch` | include/dfr/venue/retransmit_facility.hpp:162 | and then every merge is of ranges that touch, as its assertion demands |
| `RetransmitFacilities.OnlyWantedPackets` | include/dfr/venue/retransmit_facility.hpp:152-165 | a packet is emitted if and only if it is held and overlaps the request |
| `RetransmitFacilities.RetransmitFacility.Record` | include/dfr/venue/retransmit_facility.hpp:92-115 | the overwriting ring computes the window, and counts every eviction |
| `RetransmitFacilities.RetransmitFacility.Serve` | include/dfr/venue/retransmit_facility.hpp:123-166 | the loop computes the answer, whatever was recorded |
| `RetransmitFacilities.RetransmitFacility.HeldAt` | include/dfr/venue/retransmit_facility.hpp:182-186 | index i is the i-th oldest packet |
| `RetransmitRepairs.PacketSettles` | include/dfr/recovery/client.hpp:93-201 | a live client that accepts a packet misses nothing it carried and reopens nothing it had |
| `RetransmitRepairs.AnswerRepairs` | include/dfr/venue/retransmit_facility.hpp:123-166 | an answer to a request whose messages are all held, accepted by the live client, leaves none of it missing or asked for |
| `RepairLoops.QuietPacket` | include/dfr/recovery/client.hpp:154-191 | a packet that starts below the expectation opens no hole, and the requester hears at most what arrived |
| `RepairLoops.CutKeepsHopeful` | include/dfr/recovery/requester.hpp:100-136 | cutting what arrived out of the entries leaves their times and attempts alone |
| `RepairLoops.PacketWelcome` | include/dfr/recovery/client.hpp:93-201 | a live client never refuses a packet below its expectation around which no request lies, unless it contradicts one it remembers |
| `RepairLoops.AnswerKeepsFeeding` | tools/support/traced_pipeline.hpp:202-207 | no packet of an answer to the client's own request is refused, and everything they carry is settled |
| `RepairLoops.RoundRepairs` | tools/support/traced_pipeline.hpp:178-215 | one poll with its answer fed back repairs all of the range asked for, opens nothing, leaves fewer requests and the client live |
| `RepairLoops.LoopRepairsWhatIsDue` | tools/support/traced_pipeline.hpp:178-215 | while the facility holds what is missing, as many rounds as requests outstanding leave the poll idle and nothing missing but what was not due to be asked for |
| `RepairLoops.LoopRepairsEverything` | tools/support/traced_pipeline.hpp:178-215 | and nothing at all when every request was due |
| `RepairLoops.StepsSuffice` | tools/support/traced_pipeline.hpp:180-188 | the loop ends by itself before its limit of 64 steps |
| `SpscRings.StepKeeps` | include/dfr/concurrent/spsc_ring.hpp:109-168 | every single step of either thread keeps the invariant |
| `SpscRings.EveryInterleaving` | include/dfr/concurrent/spsc_ring.hpp:109-168 | the invariant holds after every interleaving from a new ring |
| `SpscRings.PoppedIsPrefixOfPushed` | include/dfr/concurrent/spsc_ring.hpp:109-168 | popped is a prefix of pushed, and cached head <= head <= cached tail <= tail <= head + capacity at every instant |
| `SpscRings.WrittenSlotIsFree` | include/dfr/concurrent/spsc_ring.hpp:124 | the slot being written holds nothing unread |
| `SpscRings.NoRace` | include/dfr/concurrent/spsc_ring.hpp:124-162 | the slot being written is never one being copied out |
| `SpscRings.NoPushIsLost` | include/dfr/concurrent/spsc_ring.hpp:109-128 | pushes begun = published + refused + in flight, over every run |
| `SpscRings.RefusedExactlyWhenFull` | include/dfr/concurrent/spsc_ring.hpp:116-122 | a refusal means the ring was full at the head seen; with a current view it is refused exactly when full |
| `SpscRings.EmptyExactlyWhenDrained` | include/dfr/concurrent/spsc_ring.hpp:133-141 | with a current view a pop is empty exactly when everything pushed was popped |
| `SpscRings.BatchTakesWhatThereIs` | include/dfr/concurrent/spsc_ring.hpp:154-168 | with a current view a batch takes all there is, up to its limit |
| `SpscRings.PushAppends` | include/dfr/concurrent/spsc_ring.hpp:109-128 | an undisturbed push appends exactly when there is room |
| `SpscRings.SpscRing.Push` | include/dfr/concurrent/spsc_ring.hpp:109-128 | the code is those steps: slot, tail, cached head and refusals |
| `SpscRings.SpscRing.Pop` | include/dfr/concurrent/spsc_ring.hpp:133-146 | the next record, or nothing touched |
| `SpscRings.SpscRing.PopBatch` | include/dfr/concurrent/spsc_ring.hpp:154-168 | the next records in order, the rest of the output untouched |
| `Publishers.OfferKeepsExactly` | include/dfr/concurrent/publisher.hpp:80-163 | an offer keeps order and window if and only if it does not re-offer a held next with room in the ring |
| `Publishers.SoundExactly` | include/dfr/concurrent/publisher.hpp:80-163 | over any run: published in order and every held record ahead of next in its own slot, throughout, if and only if no offer does so |
| `Publishers.InOrderForEverExactly` | include/dfr/concurrent/publisher.hpp:80-163 | the records published are first, first+1, ... now and after any number of further messages in sequence, if and only if the ring never took the next message without room for all held right behind it |
| `Publishers.DrainRefusedExactly` | include/dfr/concurrent/publisher.hpp:148-163 | a drain is refused if and only if the ring is full before the first free slot |
| `Publishers.RefusedExactly` | include/dfr/concurrent/publisher.hpp:96-102 | that guard, seen from the answer: the next message is published and the offer answered false |
| `Publishers.NothingMoreWithoutReoffer` | include/dfr/concurrent/publisher.hpp:96-102 | after a refused drain a run publishes nothing more, or re-offers |
| `Publishers.DoomedGoesWrong` | include/dfr/concurrent/publisher.hpp:148-163 | from a refused drain, and from a re-offer, a window's worth of messages in sequence publishes a wrong number |
| `Publishers.NextSlotHoldsNext` | include/dfr/concurrent/publisher.hpp:154-155 | the drain's assertion holds |
| `Publishers.NeverAliased` | include/dfr/concurrent/publisher.hpp:126-130 | the alias check never refuses while the invariant holds |
| `Publishers.KeepingUpIsEnough` | include/dfr/concurrent/publisher.hpp:96-163 | while no drain is refused, direct pushes refused or not, order and window hold with no hypothesis on the caller |
| `Publishers.TrueMeansKept` | include/dfr/concurrent/publisher.hpp:74-135 | a true answer means published or held |
| `Publishers.AnswersExactly` | include/dfr/concurrent/publisher.hpp:74-135 | true if and only if the message was passed before, or goes out with all held behind it, or lies in the window |
| `Publishers.PublishedWasOffered` | include/dfr/concurrent/publisher.hpp:74-163 | over any run everything published or held is a record that was offered, unchanged |
| `Publishers.NothingHeldIsDropped` | include/dfr/concurrent/publisher.hpp:96-163 | a held message stays held until its number is passed, whatever is offered |
| `Publishers.ReofferPublishesTwice` | include/dfr/concurrent/publisher.hpp:96-102 | five offers, the second ending in a refused drain, that publish message 2 twice |
| `PublishedRings.StepKeepsExactly` | include/dfr/concurrent/publisher.hpp:138-163 | a step of a call, being one of the ring's, or of the consumer keeps both sound and the ring's content what was published, if and only if it does not publish a number still held |
| `PublishedRings.EveryInterleaving` | include/dfr/concurrent/publisher.hpp:80-163 | over every interleaving: sound at every instant if and only if no such step is taken |
| `PublishedRings.NeverStoppedIsCareful` | include/dfr/concurrent/publisher.hpp:148-163 | none is when no call was stopped while draining |
| `PublishedRings.ConsumerSeesTheFeedInOrder` | include/dfr/concurrent/publisher.hpp:54-60 | while no number still held is published: at every instant of the interleaving, in the middle of calls too, the consumer has popped the feed in order, at most a ring's worth behind |
| `PublishedRings.KeepingUpIsInOrder` | include/dfr/concurrent/publisher.hpp:54-60 | the same when no call was stopped while draining |
| `PublishedRings.EveryCallTracks` | include/dfr/concurrent/publisher.hpp:80-163 | at every instant of every interleaving a call is where an offer with that much room, and more, would be |
| `PublishedRings.CallIsAnOffer` | include/dfr/concurrent/publisher.hpp:80-163 | a call carried out step by step does what one offer does with room for the pushes it took |
| `PublishedRings.RefusedOnlyWhenFull` | include/dfr/concurrent/publisher.hpp:138-145 | a call ends early only when the ring was full at the head it saw |
| `Publishers.Publisher.Offer` | include/dfr/concurrent/publisher.hpp:80-135 | the code computes the specification |
| `Publishers.Publisher.DrainPending` | include/dfr/concurrent/publisher.hpp:148-163 | the loop computes the drain |
| `OrderLevelBooks.MapSize` | include/dfr/book/order_level_book.hpp:148-162 | counting live slots counts the map, because references are distinct |
| `OrderLevelBooks.StoppingIsSafe` | include/dfr/book/order_level_book.hpp:177-190 | a lookup that stops at an empty slot or after every slot misses nothing |
| `OrderLevelBooks.OverwriteKeepsFindable` | include/dfr/book/order_level_book.hpp:197-228 | inserts and tombstones put no empty slot on any live probe path |
| `OrderLevelBooks.RunIsOrderly` | include/dfr/book/order_level_book.hpp:69-146 | after any run references are nonzero and unique, shares positive, and the book within capacity |
| `OrderLevelBooks.RefusedOnlyWhenFull` | include/dfr/book/order_level_book.hpp:197-221 | a refusal for room happens exactly on a well-formed add of a new reference to a full book, so never inside a replace |
| `OrderHistories.BookIsItsHistory` | include/dfr/book/order_level_book.hpp:69-146 | after any run the book holds exactly the orders filed and not withdrawn with shares left: price and shares of the message that filed them less what was executed or canceled since, symbol and side of the add at the head of their replaces; and the sum of executed shares |
| `OrderHistories.RefusedExactly` | include/dfr/book/order_level_book.hpp:69-146 | each message is refused if and only if that history does not permit it, and then changes nothing |
| `OrderLevelBooks.CountingDecidesEquality` | include/dfr/book/order_level_book.hpp:148-162 | equal counts and one-way agreement make the maps equal |
| `OrderLevelBooks.OrderLevelBook.FindIndex` | include/dfr/book/order_level_book.hpp:177-190 | finds the slot of a reference exactly when it is live |
| `OrderLevelBooks.OrderLevelBook.Find` | include/dfr/book/order_level_book.hpp:53-57 | the order filed under a reference, or none |
| `OrderLevelBooks.OrderLevelBook.FreeSlot` | include/dfr/book/order_level_book.hpp:197-221 | the probe finds a slot the new order's lookup will reach, unless every slot is live |
| `OrderLevelBooks.OrderLevelBook.Insert` | include/dfr/book/order_level_book.hpp:197-221 | adds to the map, refused exactly when full; the final refusal in the source is unreachable |
| `OrderLevelBooks.OrderLevelBook.Erase` | include/dfr/book/order_level_book.hpp:223-228 | a tombstone removes exactly that order |
| `OrderLevelBooks.OrderLevelBook.Apply` | include/dfr/book/order_level_book.hpp:69-146 | all five messages, with their errors, refine the map |
| `OrderLevelBooks.OrderLevelBook.ApplyReplace` | include/dfr/book/order_level_book.hpp:125-146 | erase then insert is one replacement and the insert cannot fail |
| `OrderLevelBooks.OrderLevelBook.Equals` | include/dfr/book/order_level_book.hpp:148-162 | true if and only if maps and executed shares agree |
| `OrderBooks.LastWriteWins` | include/dfr/book/order_book.hpp:82-106 | after any run each price holds the size of its last update not refused, and the side stays within capacity |
| `OrderBooks.EachSideHoldsItsLast` | include/dfr/book/order_book.hpp:189-193 | after any run of book updates each bid price holds its last accepted buy, each ask price its last accepted sell |
| `OrderBooks.RefusedOnlyWhenFull` | include/dfr/book/order_book.hpp:82-106 | refused if and only if the size is positive, the price new on its side and that side full; then nothing changes |
| `OrderBooks.OneSideOnePrice` | include/dfr/book/order_book.hpp:189-193 | an update leaves the other side, and every other price of its own, alone |
| `OrderBooks.SortedUnique` | include/dfr/book/order_book.hpp:114-124 | sorted lists of one map are equal, so comparing arrays compares books |
| `OrderBooks.Side.PositionOf` | include/dfr/book/order_book.hpp:129-135 | everything before the position is better, nothing from it on is |
| `OrderBooks.Side.Apply` | include/dfr/book/order_book.hpp:82-106 | refines the price map; refused exactly when the side is full and the price new |
| `OrderBooks.Side.InsertAt` | include/dfr/book/order_book.hpp:141-148 | shifting up inserts one level |
| `OrderBooks.Side.RemoveAt` | include/dfr/book/order_book.hpp:150-156 | shifting down removes one level |
| `OrderBooks.Side.Equals` | include/dfr/book/order_book.hpp:114-124 | true if and only if the price maps are equal |
| `OrderBooks.Side.Best` | include/dfr/book/order_book.hpp:69-71 | the best price in the map, with its size |
| `OrderBooks.OrderBook.Apply` | include/dfr/book/order_book.hpp:189-193 | an update touches one side only |
| `OrderBooks.OrderBook.Equals` | include/dfr/book/order_book.hpp:216-218 | true if and only if both maps are equal, whatever the histories |
| `OrderBooks.OrderBook.Crossed` | include/dfr/book/order_book.hpp:185-187 | some bid at or above some ask, decided from the best prices |
| `Pipelines.ArrivalOrderDoesNotMatter` | tools/support/traced_pipeline.hpp:63-82 | any order and repetition of the same deliveries builds the same book |
| `Pipelines.OfferAllKeeps` | tools/support/traced_pipeline.hpp:71-82 | the book is always the loss-free one up to the first message not delivered |
| `Pipelines.LossFreeIsReplayed` | tools/support/traced_pipeline.hpp:71-82 | the loss-free book is the run of the feed's price level updates in order, other messages left out |
| `Pipelines.Pipeline.DeliverToBook` | tools/support/traced_pipeline.hpp:71-82 | insert, then drain what has become contiguous |
| `Pipelines.Pipeline.Deliver` | tools/support/traced_pipeline.hpp:248-279 | the loops offer repairs, then what is newly accepted, number by number |
| `EndToEnd.WalkingIsAscending` | tools/support/traced_pipeline.hpp:251-256 | walking the repaired ranges visits each repaired number once, in ascending order |
| `EndToEnd.DeliveriesAreHanded` | tools/support/traced_pipeline.hpp:164-172 | what reaches the pipeline is exactly what the ledger says was handed over |
| `EndToEnd.EraBeginsWhereJoined` | include/dfr/recovery/client.hpp:115-125 | the one era of a calm run begins at the first number of its first packet |
| `EndToEnd.BookIsLossFree` | tools/support/traced_pipeline.hpp:63-82 | in every calm single-session run the book is the loss-free book up to the lowest hole; when the first packet began above 1 it is empty |
| `EndToEnd.RepairedBookIsWhole` | tools/support/traced_pipeline.hpp:63-82 | with no hole left the whole feed has been applied if and only if the first packet began at 1 or below, and then the book is the loss-free one |
| `EndToEnd.JoiningLateStaysEmpty` | tools/support/traced_pipeline.hpp:63-82 | a run that joins at message 2 misses nothing and has an empty book where the feed's is not |
| `RepairedBooks.LoopIsRun` | tools/support/traced_pipeline.hpp:178-215 | the repair loop is a calm run that continues the events so far |
| `RepairedBooks.LossIsRepaired` | tools/support/traced_pipeline.hpp:63-215 | any calm run joined at message 1, then the loop: nothing is missing and the book is the loss-free book up to the expectation |
| `Rngs.ExactlyUniform` | include/dfr/core/rng.hpp:130-156 | each result below the bound is given by exactly floor(2^64 / bound) words |
| `Rngs.EarlyTestIsExact` | include/dfr/core/rng.hpp:142-148 | the early comparison rejects exactly what comparing with 2^64 mod bound rejects |
| `Rngs.FewerThanHalfRejected` | include/dfr/core/rng.hpp:127-148 | exactly 2^64 mod bound words are rejected, always fewer than half |
| `Rngs.ChanceIsExact` | include/dfr/core/rng.hpp:185-196 | results under a limit take exactly limit * floor(2^64 / bound) words: a chance has its ratio exactly |
| `Rngs.MixedZero` | include/dfr/core/rng.hpp:86-88 | the seeding mix sends only zero to zero |
| `Rngs.SeedingIsAlive` | include/dfr/core/rng.hpp:78-93 | the asserted fact: no seed gives the all-zero state |
| `Rngs.StepStaysAlive` | include/dfr/core/rng.hpp:103-109 | no step leads into it |
| `Rngs.NeverDead` | include/dfr/core/rng.hpp:78-113 | no draw of any seed ever reaches it |
| `Rngs.FirstOutputs0` | tests/core/rng_engine_test.cpp:26-28 | the first four outputs for seed 0 are the independently computed ones |
| `Rngs.FirstOutputs42` | tests/core/rng_engine_test.cpp:30-32 | and those for seed 42 |
| `Rngs.Prng.Next` | include/dfr/core/rng.hpp:99-113 | one output and one step, recorded |
| `Rngs.Prng.Below` | include/dfr/core/rng.hpp:130-156 | under the bound; every word before the last was rejected, the last accepted and its high half returned; a bound of one draws nothing |
| `Rngs.Prng.Between` | include/dfr/core/rng.hpp:164-171 | within both ends, the full range included |
| `Rngs.Prng.Chance` | include/dfr/core/rng.hpp:185-196 | decided by the last word's membership; never and always draw nothing |
| `Rngs.Prng.Shuffle` | include/dfr/core/rng.hpp:209-220 | the in-place swaps produce the order its draws name; fewer than two items take no draw |
| `Shuffles.ShufflePermutes` | include/dfr/core/rng.hpp:209-220 | a shuffle is a permutation |
| `Shuffles.DrawsAreOrders` | include/dfr/core/rng.hpp:209-220 | of distinct items, different draws give different orders |
| `Shuffles.EveryOrderHasDraws` | include/dfr/core/rng.hpp:209-220 | every order is given by some draws |

## Left out

- Wrap-around of sequence numbers, counters and time: naturals and integers are unbounded here.
- ClientRuns.RunKeeps: carries the snapshot check `LawfulRun` as a hypothesis, because without it the statement is false (see above).
- ClientRuns.EveryMessageOnceOrMissing: carries it too.
- EndToEnd.BookIsLossFree: assumes one session, no call refused and no recovery by snapshot; runs with both are covered by the ledger, not by the book.
- Rngs.Prng.Below: takes a budget of words, because the rejection loop ends only in expectation; the answer is absent when every word of the budget was rejected.
- Rngs.Prng.Between: takes the same budget.
- Rngs.Prng.Chance: takes the same budget.
- Rngs.Prng.Shuffle: takes the same budget for each draw.
- Publishers.Publisher.Offer: takes the number of pushes the ring accepts during the call as a parameter; `PublishedRings` has the ring in its place.
- RepairLoops.LoopRepairsEverything: assumes that the venue holds all that is missing, that no request has been given up, that every one is due, and, when divergence is detected, that no packet remembered contradicts one held; `RepairLoops.LoopRepairsWhatIsDue` does without every request being due.
- RepairedBooks.LossIsRepaired: assumes the same, after a calm run joined at message 1.
- SpscRings.NoRace: slots are memory in which a completed write is seen by whoever loaded the tail after it; other effects of hardware memory, cache lines and padding are not modelled.
- SpscRings.SpscRing.Push: runs one operation at a time; interleavings are the state machine's, whose steps it is proved to be.
- The tracker's other channels: one channel is modelled, as the client uses one.
- Line numbers, line liveness and statistics that no decision reads (arbiter, requester, facility, book, publisher counters), and `size_approx`.
- `shares_open` and the per-kind counters of the order-level book; trades, which do not change price levels.
- Assertions and their levels: what they assert is proved where it belongs to a modelled call.
- Wire codecs, capture files, venue services and order entry, the chaos injector, traces, viewers and command-line tools. Faults appear as arbitrary packets.
- Saving and restoring the generator's state, `pick` and `index`, which only forward to a draw.
