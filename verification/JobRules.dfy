/** The statuses of jobs, runs and queue messages, and the rules declared over them. */
module JobRules {
  import opened Wrappers

  datatype JobStatus = Queued | Started | Finished | Failed | Cancelled | Retrying

  datatype RunStatus = Pending | Running | Completed | RunFailed | RunCancelled

  datatype RqStatus =
    | RqQueued
    | RqDeferred
    | RqScheduled
    | RqStarted
    | RqFinished
    | RqFailed
    | RqCanceled
    | RqStopped

  predicate Active(s: JobStatus) {
    (s.Queued? || s.Started? || s.Retrying?)
  }

  predicate Terminal(s: JobStatus) {
    (s.Finished? || s.Failed? || s.Cancelled?)
  }

  /** The declared table. Nothing consults it when a status is written. */
  function AllowedTransitions(s: JobStatus): set<JobStatus> {
    match s
    case Queued => {Started, Failed, Cancelled}
    case Started => {Finished, Failed, Retrying}
    case Retrying => {Started, Failed, Cancelled}
    case Finished => {}
    case Failed => {}
    case Cancelled => {}
  }

  /** ensure_valid_status_transition: staying put is always allowed. */
  predicate LegalChange(current: JobStatus, next: JobStatus) {
    current == next || next in AllowedTransitions(current)
  }

  predicate JobCancellable(s: JobStatus) {
    s == Queued
  }

  predicate RunProcessable(s: RunStatus) {
    (s.Pending? || s.RunFailed?)
  }

  predicate RunCancellable(s: RunStatus) {
    (s.Pending? || s.Running?)
  }

  function MapRqStatus(rq: Option<RqStatus>): Option<JobStatus> {
    match rq
    case None => None
    case Some(RqQueued) => Some(Queued)
    case Some(RqDeferred) => Some(Queued)
    case Some(RqScheduled) => Some(Queued)
    case Some(RqStarted) => Some(Started)
    case Some(RqFinished) => Some(Finished)
    case Some(RqFailed) => Some(Failed)
    case Some(RqCanceled) => Some(Cancelled)
    case Some(RqStopped) => Some(Cancelled)
  }

  /** How many times RQ executes one message: the first try plus Retry(max = maxRetries - 1). */
  function ExecutionsGranted(maxRetries: nat): nat {
    if maxRetries > 1 then maxRetries else 1
  }
}
