/** The error vocabulary shared by every component, and the result type that carries it.
    Only the codes the modelled components can return are listed. */
module Errors {

  datatype Error =
    | CapacityExceeded
    | InvalidArgument
    | LinesDiverged
    | SequenceGap
    | SessionChanged
    | EndOfSession
    | RecoveryBufferOverflow
    | RetransmitTimedOut
    | RetransmitWindowExceeded
    | RetransmitRejected
    | SnapshotBehindBuffer
    | SnapshotStale
  {
    /** Whether the stream can only continue after state is re-established from scratch. */
    predicate IsFatal() {
      match this
      case SessionChanged => true
      case SnapshotBehindBuffer => true
      case RetransmitWindowExceeded => true
      case RecoveryBufferOverflow => true
      case LinesDiverged => true
      case EndOfSession => true
      case _ => false
    }
  }

  datatype Result<+T> = Ok(value: T) | Err(error: Error)

  datatype Option<+T> = None | Some(value: T)
}
