/** Transition tables for the actual status of resources and the logical states of workers and segments.
    Each table maps (current state, reported state) to Advance, NoOp or Reject. */
module StateMachines {
  import opened Types

  datatype Step<S> = Advance(to: S) | NoOp | Reject

  function Apply<S>(cur: S, step: Step<S>): S
  {
    if step.Advance? then step.to else cur
  }

  function ActualRank(s: ActualStatus): nat
  {
    match s
    case Unknown => 0
    case Creating => 1
    case Created => 2
    case Running => 3
    case Stopping => 4
    case Destroyed => 5
  }

  /** Actual status only moves forward; a repeated or out-of-order report is a no-op, never an error. */
  function ActualStep(cur: ActualStatus, reported: ActualStatus): Step<ActualStatus>
  {
    if ActualRank(reported) > ActualRank(cur) then Advance(reported) else NoOp
  }

  /** The status a resource holds after a report: never behind either the old status or the report. */
  function ApplyActualReport(cur: ActualStatus, reported: ActualStatus): (next: ActualStatus)
    ensures next == cur || next == reported
    ensures ActualRank(cur) <= ActualRank(next) && ActualRank(reported) <= ActualRank(next)
  {
    Apply(cur, ActualStep(cur, reported))
  }

  /** A report moves the resource from before Created to Created or beyond: the provisioning trigger. */
  predicate ReachesCreated(cur: ActualStatus, reported: ActualStatus)
  {
    ActualRank(cur) < ActualRank(Created) <= ActualRank(reported)
  }

  function SegmentRank(s: SegmentState): nat
  {
    match s
    case Initialized => 0
    case Running => 1
    case Completed => 2
  }

  /** Segment logical state moves forward; re-applying the same state is a no-op, going back is rejected. */
  function SegmentStep(cur: SegmentState, requested: SegmentState): Step<SegmentState>
  {
    if SegmentRank(requested) > SegmentRank(cur) then Advance(requested)
    else if requested == cur then NoOp
    else Reject
  }

  predicate IsTerminal(s: SegmentState)
  {
    s == Completed
  }

  /** Worker activation: Registered goes to Activated, Activated stays put. */
  function ActivateStep(cur: WorkerState): Step<WorkerState>
  {
    match cur
    case Registered => Advance(Activated)
    case Activated => NoOp
  }

  /** A second identical actual-status report changes nothing. */
  lemma ActualReportIdempotent(cur: ActualStatus, reported: ActualStatus)
    ensures ActualStep(ApplyActualReport(cur, reported), reported) == NoOp
    ensures ApplyActualReport(ApplyActualReport(cur, reported), reported) == ApplyActualReport(cur, reported)
  {
  }

  /** Created is crossed at most once: after a report that crosses it, no later report crosses it again. */
  lemma CreatedCrossedOnce(cur: ActualStatus, first: ActualStatus, later: ActualStatus)
    requires ReachesCreated(cur, first)
    ensures !ReachesCreated(ApplyActualReport(cur, first), later)
  {
  }

  /** Activating is idempotent and always ends in Activated. */
  lemma ActivateIdempotent(cur: WorkerState)
    ensures Apply(cur, ActivateStep(cur)) == Activated
    ensures ActivateStep(Apply(cur, ActivateStep(cur))) == NoOp
  {
  }

  /** The segment table never errors on a forward or repeated report and rejects exactly the backward ones. */
  lemma SegmentStepRejectsOnlyBackward(cur: SegmentState, requested: SegmentState)
    ensures SegmentStep(cur, requested) == Reject <==> SegmentRank(requested) < SegmentRank(cur)
    ensures SegmentStep(Apply(cur, SegmentStep(cur, requested)), requested) != Advance(requested)
  {
  }
}
