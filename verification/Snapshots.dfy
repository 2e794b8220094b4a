/** Classifying a snapshot against what the client already holds. */
module Snapshots {
  import opened Ranges

  datatype Verdict = Usable | BehindBuffer | Stale

  datatype Plan = Plan(verdict: Verdict, discard: Range, replay: Range, unfillable: Range, resumeFrom: nat)

  /** `at` is the first sequence number the snapshot does not cover. */
  function PlanSnapshot(at: nat, buffered: Range, delivered: nat): Plan {
    if at <= delivered then Plan(Stale, EMPTY, EMPTY, EMPTY, delivered)
    else if buffered.IsEmpty() then Plan(Usable, EMPTY, EMPTY, EMPTY, at)
    else if at < buffered.first then Plan(BehindBuffer, EMPTY, EMPTY, Range(at, buffered.first), 0)
    else if at >= buffered.end then Plan(Usable, buffered, EMPTY, EMPTY, at)
    else Plan(Usable, Range(buffered.first, at), Range(at, buffered.end), EMPTY, buffered.end)
  }

  /** A snapshot that is not stale is usable exactly when it and the buffer leave no number uncovered
      below the end of the buffer; otherwise the plan names precisely the numbers in neither. */
  lemma UsableExactlyWhenNothingIsMissing(at: nat, buffered: Range, delivered: nat)
    requires at > delivered && (buffered.IsEmpty() ==> buffered == EMPTY)
    ensures PlanSnapshot(at, buffered, delivered).verdict == Usable <==> Span(Range(at, buffered.end)) <= Span(buffered)
    ensures !buffered.IsEmpty() ==>
              Span(PlanSnapshot(at, buffered, delivered).unfillable) == Span(Range(at, buffered.end)) - Span(buffered)
  {
    var plan := PlanSnapshot(at, buffered, delivered);
    PredicatesMeanSets(buffered, Range(at, buffered.end));
    if plan.verdict == BehindBuffer {
      assert at in Span(Range(at, buffered.end)) && at !in Span(buffered);
    }
  }

  /** Carrying out a usable plan hands over every number below the resume point exactly once: what the
      snapshot covers, then what is replayed. Nothing buffered is left out of account. */
  lemma UsablePlanIsComplete(at: nat, buffered: Range, delivered: nat)
    requires PlanSnapshot(at, buffered, delivered).verdict == Usable
    ensures var plan := PlanSnapshot(at, buffered, delivered);
            && Span(Range(0, plan.resumeFrom)) == Span(Range(0, at)) + Span(plan.replay)
            && Span(Range(0, at)) !! Span(plan.replay)
            && Span(buffered) == Span(plan.discard) + Span(plan.replay)
            && Span(plan.discard) <= Span(Range(0, at))
            && delivered < at <= plan.resumeFrom
            && plan.unfillable.IsEmpty()
  {
    PredicatesMeanSets(buffered, EMPTY);
    PredicatesMeanSets(EMPTY, EMPTY);
  }
}
