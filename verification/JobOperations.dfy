/**
  What each operation answers and what it changes, said of the states before and after: the partner
  of the effects in the protocol, independent of how they are put together.
  */
module JobOperations {
  import opened Wrappers
  import opened JobRules
  import opened ForecastTables
  import opened JobProtocol
  import opened JobInvariants
  import opened JobSafety
  import opened JobExclusion

  predicate CanStart(s: State, run: RunId) {
    StatusIs(s, run, Pending) || StatusIs(s, run, RunFailed)
  }

  // ----- enqueue ------------------------------------------------------------------------------------

  /**
    An enqueue goes on to its insert exactly for an owned run that is pending or failed, has no active
    job, and has inputs; an active job is the answer; each refusal names what was missing. The cases
    exclude each other, so each holds exactly then.
    */
  lemma EnqueueAnswersExactly(s: State, c: CallId, user: UserId, run: RunId, inputsOk: bool)
    requires Inv(s) && c !in s.calls
    ensures var t := Next(s, EnqueueCheck(c, user, run, inputsOk));
      && c in t.calls && t == s.(calls := s.calls[c := t.calls[c]])
      && match t.calls[c]
         case EnqueueChecked(u, r) =>
           u == user && r == run && OwnsRun(s, user, run) && !HasActive(s, run) && CanStart(s, run) && inputsOk
         case Answered(j) => OwnsRun(s, user, run) && ActiveFor(s, j, run)
         case Refused(RunNotFound) => !OwnsRun(s, user, run)
         case Refused(RunNotProcessable) => OwnsRun(s, user, run) && !HasActive(s, run) && !CanStart(s, run)
         case Refused(InputsMissing) =>
           OwnsRun(s, user, run) && !HasActive(s, run) && CanStart(s, run) && !inputsOk
         case _ => false
  {
    if OwnsRun(s, user, run) { ActiveJobIsFound(s, user, run); }
  }

  lemma EnqueueInsertExactly(s: State, c: CallId, j: JobId, maxRetries: nat)
    requires c in s.calls && s.calls[c].EnqueueChecked? && j !in s.jobs
    ensures var t, user, run := Next(s, EnqueueInsert(c, j, maxRetries)), s.calls[c].user, s.calls[c].run;
      t == if HasActive(s, run) then s.(calls := s.calls[c := LostRace(user, run)])
           else s.(calls := s.calls[c := Inserted(j)], jobs := s.jobs[j := Job(user, run, Queued, 0, maxRetries)])
  {
  }

  // ----- retry --------------------------------------------------------------------------------------

  predicate Retryable(s: State, user: UserId, j: JobId) {
    j in s.jobs && s.jobs[j].user == user && s.jobs[j].status == Failed && s.jobs[j].attempts < s.jobs[j].maxRetries
  }

  /** What a retry may be answered, and when. */
  ghost predicate RetryAnswerOk(s: State, user: UserId, j: JobId, inputsOk: bool, answer: Call) {
    match answer
    case RetryChecked(u, r, seen) =>
      && Retryable(s, user, j) && u == user && r == s.jobs[j].run && StatusIs(s, r, seen)
      && !HasActive(s, r) && CanStart(s, r) && inputsOk
    case Answered(a) => Retryable(s, user, j) && ActiveFor(s, a, s.jobs[j].run)
    case Refused(JobNotFound) => j !in s.jobs || s.jobs[j].user != user
    case Refused(JobNotRetryable) => j in s.jobs && s.jobs[j].user == user && s.jobs[j].status != Failed
    case Refused(RetryLimitExceeded) =>
      j in s.jobs && s.jobs[j].user == user && s.jobs[j].status == Failed && !Retryable(s, user, j)
    case Refused(RunNotProcessable) =>
      Retryable(s, user, j) && !HasActive(s, s.jobs[j].run) && !CanStart(s, s.jobs[j].run)
    case Refused(InputsMissing) =>
      Retryable(s, user, j) && !HasActive(s, s.jobs[j].run) && CanStart(s, s.jobs[j].run) && !inputsOk
    case _ => false
  }

  lemma RetryAnswer(s: State, c: CallId, user: UserId, j: JobId, inputsOk: bool)
    requires c !in s.calls
    requires Retryable(s, user, j) ==>
      && OwnsRun(s, user, s.jobs[j].run)
      && (ActiveJobOf(s, user, s.jobs[j].run).Some? <==> HasActive(s, s.jobs[j].run))
    ensures var t := Next(s, RetryCheck(c, user, j, inputsOk));
      && c in t.calls && t == s.(calls := s.calls[c := t.calls[c]])
      && RetryAnswerOk(s, user, j, inputsOk, t.calls[c])
  {
  }

  /**
    A retry goes on to its insert exactly for the caller's own failed job with attempts left, on a run
    that can start and has no active job; the cases exclude each other, so each holds exactly then.
    */
  lemma RetryAnswersExactly(s: State, c: CallId, user: UserId, j: JobId, inputsOk: bool)
    requires Inv(s) && c !in s.calls
    ensures var t := Next(s, RetryCheck(c, user, j, inputsOk));
      && c in t.calls && t == s.(calls := s.calls[c := t.calls[c]])
      && RetryAnswerOk(s, user, j, inputsOk, t.calls[c])
  {
    hide Inv, Next, RetryAnswerOk;
    InvariantAt(s, j);
    if Retryable(s, user, j) { ActiveJobIsFound(s, user, s.jobs[j].run); }
    RetryAnswer(s, c, user, j, inputsOk);
  }

  /** The insert of a retry also makes its run pending, unless the run was pending when it was checked. */
  lemma RetryInsertExactly(s: State, c: CallId, j: JobId, maxRetries: nat)
    requires c in s.calls && s.calls[c].RetryChecked? && s.calls[c].run in s.runs && j !in s.jobs
    ensures var t, user, run := Next(s, RetryInsert(c, j, maxRetries)), s.calls[c].user, s.calls[c].run;
      t == if HasActive(s, run) then s.(calls := s.calls[c := Refused(DuplicateActiveJob)])
           else s.(
             calls := s.calls[c := Inserted(j)],
             jobs := s.jobs[j := Job(user, run, Queued, 0, maxRetries)],
             runs := if s.calls[c].seen == Pending then s.runs else s.runs[run := s.runs[run].(status := Pending)])
  {
  }

  // ----- a call by itself is harmless ----------------------------------------------------------------

  /** An enqueue that inserts right after its own check never does harm. */
  lemma EnqueueAloneIsHarmless(
    s: State, c: CallId, user: UserId, run: RunId, inputsOk: bool, j: JobId, maxRetries: nat)
    requires Inv(s) && Exclusive(s) && c !in s.calls
    ensures var t := Next(s, EnqueueCheck(c, user, run, inputsOk));
      !HarmfulInsert(t, EnqueueInsert(c, j, maxRetries))
  {
    hide Inv, Exclusive, HarmfulInsert;
    EnqueueAnswersExactly(s, c, user, run, inputsOk);
    CheckedRunIsTimely(s, Next(s, EnqueueCheck(c, user, run, inputsOk)), EnqueueInsert(c, j, maxRetries));
  }

  /** A retry that inserts right after its own check never does harm. */
  lemma RetryAloneIsHarmless(
    s: State, c: CallId, user: UserId, failed: JobId, inputsOk: bool, j: JobId, maxRetries: nat)
    requires Inv(s) && Exclusive(s) && c !in s.calls
    ensures var t := Next(s, RetryCheck(c, user, failed, inputsOk));
      !HarmfulInsert(t, RetryInsert(c, j, maxRetries))
  {
    hide Inv, Exclusive, HarmfulInsert;
    RetryAnswersExactly(s, c, user, failed, inputsOk);
    CheckedRunIsTimely(s, Next(s, RetryCheck(c, user, failed, inputsOk)), RetryInsert(c, j, maxRetries));
  }

  /** Only the calls differ, and the call that is to insert names a run that can start. */
  lemma CheckedRunIsTimely(s: State, t: State, a: Action)
    requires Inv(s) && Exclusive(s) && (a.EnqueueInsert? || a.RetryInsert?) && a.call in t.calls
    requires t == s.(calls := t.calls)
    requires t.calls[a.call].EnqueueChecked? || t.calls[a.call].RetryChecked? ==> CanStart(s, t.calls[a.call].run)
    ensures !HarmfulInsert(t, a)
  {
    hide Inv, Exclusive;
    if t.calls[a.call].EnqueueChecked? || t.calls[a.call].RetryChecked? {
      RunFactsHold(s, t.calls[a.call].run);
    }
  }

  // ----- dispatch ------------------------------------------------------------------------------------

  /** A delivered dispatch queues the row's subject for max(1, max_retries) executions in all. */
  lemma DispatchExactly(s: State, c: CallId, delivered: bool)
    requires c in s.calls && s.calls[c].Inserted? && s.calls[c].job in s.jobs
    ensures var t, j := Next(s, Dispatch(c, delivered)), s.calls[c].job;
      var job := s.jobs[j];
      t == if !delivered then s.(calls := s.calls[c := DispatchFailed(j)])
           else s.(
             calls := s.calls[c := Answered(j)],
             queue := s.queue[j := Message(
               job.user, job.run, RqQueued, if job.maxRetries <= 1 then 0 else job.maxRetries - 1,
               Idle, 0, 0, false)])
  {
  }

  lemma EnqueueFailureExactly(s: State, c: CallId)
    requires c in s.calls && s.calls[c].DispatchFailed? && s.calls[c].job in s.jobs
    ensures var j := s.calls[c].job;
      Next(s, MarkEnqueueFailed(c)) == s.(
        calls := s.calls[c := Refused(QueueUnavailable)], jobs := s.jobs[j := s.jobs[j].(status := Failed)])
  {
  }

  // ----- reconcile and cancel --------------------------------------------------------------------------

  function StatusSeen(rq: RqStatus, status: JobStatus): JobStatus {
    match rq
    case RqStarted => Started
    case RqFinished => Finished
    case RqFailed => Failed
    case RqCanceled => Cancelled
    case RqStopped => Cancelled
    case RqQueued => status
    case RqDeferred => status
    case RqScheduled => status
  }

  /** Reconciling touches only a row that has not ended, and makes it say what the queue says. */
  lemma ReconcileExactly(s: State, j: JobId)
    requires j in s.jobs
    ensures var t, status := Next(s, Reconcile(j)), s.jobs[j].status;
      t == if status == Finished || status == Failed || status == Cancelled || j !in s.queue then s
           else s.(jobs := s.jobs[j := s.jobs[j].(status := StatusSeen(s.queue[j].rq, status))])
  {
    assert s.jobs == s.jobs[j := s.jobs[j]];
  }

  /** Once the queue is done with a message, reconciling leaves its row ended, in the way the queue ended it. */
  lemma ReconcileSettles(s: State, j: JobId)
    requires Reachable(s) && j in s.queue
    requires s.queue[j].pc == Idle
      && (s.queue[j].rq == RqFinished || s.queue[j].rq == RqFailed || s.queue[j].rq == RqCanceled)
    ensures j in s.jobs && var t := Next(s, Reconcile(j));
      && j in t.jobs && Terminal(t.jobs[j].status)
      && (Active(s.jobs[j].status) ==> s.queue[j].rq == RqFailed && t.jobs[j].status == Failed)
  {
    hide Reachable, Inv, Next;
    ReachableInv(s);
    InvariantAt(s, j);
    ReconcileExactly(s, j);
  }

  /** A job can be cancelled exactly while it is queued; message, job and run are then all cancelled. */
  lemma CancelJobExactly(s: State, j: JobId)
    requires j in s.jobs && s.jobs[j].run in s.runs
    ensures var t, run := Next(s, CancelJob(j)), s.jobs[j].run;
      t == if s.jobs[j].status != Queued then s
           else s.(
             jobs := s.jobs[j := s.jobs[j].(status := Cancelled)],
             queue := if j in s.queue then s.queue[j := s.queue[j].(rq := RqCanceled)] else s.queue,
             runs := s.runs[run := s.runs[run].(status := RunCancelled)])
  {
  }

  /** A run can be cancelled exactly while it is pending or running. */
  lemma CancelRunExactly(s: State, run: RunId)
    requires run in s.runs
    ensures Next(s, CancelRun(run))
         == if StatusIs(s, run, Pending) || StatusIs(s, run, Running)
            then s.(runs := s.runs[run := s.runs[run].(status := RunCancelled)]) else s
  {
  }

  lemma CreateRunExactly(s: State, run: RunId, user: UserId, horizon: nat)
    requires run !in s.runs
    ensures Next(s, CreateRun(run, user, horizon)) == s.(runs := s.runs[run := Run(user, horizon, Pending)])
  {
  }

  // ----- processing a run --------------------------------------------------------------------------------

  /** A run is taken exactly if it is owned, can start, and the dependencies are there; without them it fails. */
  lemma DirectBeginExactly(s: State, c: CallId, user: UserId, run: RunId, depsReady: bool)
    requires Api(c) !in s.pipelines
    ensures Next(s, DirectBegin(c, user, run, depsReady))
         == if !OwnsRun(s, user, run) || !CanStart(s, run) then s
            else if !depsReady then s.(runs := s.runs[run := s.runs[run].(status := RunFailed)])
            else s.(runs := s.runs[run := s.runs[run].(status := Running)], pipelines := s.pipelines[Api(c) := run])
  {
  }

  lemma WorkerBeginExactly(s: State, j: JobId, depsReady: bool)
    requires PcIs(s, j, Loaded)
    ensures var user, run := s.queue[j].user, s.queue[j].run;
      var goes := OwnsRun(s, user, run) && CanStart(s, run);
      Next(s, Begin(j, depsReady))
      == s.(
        queue := s.queue[j := s.queue[j].(pc := if goes && depsReady then Computing else AppFailure)],
        runs := if !goes then s.runs
                else s.runs[run := s.runs[run].(status := if depsReady then Running else RunFailed)],
        pipelines := if goes && depsReady then s.pipelines[Worker(j) := run] else s.pipelines)
  {
  }

  /** A pipeline that fails leaves its run failed, and every stored row as it was. */
  lemma PipelineFailsExactly(s: State, actor: Actor)
    requires actor in s.pipelines && s.pipelines[actor] in s.runs
    ensures var t, run := Next(s, PipelineFails(actor)), s.pipelines[actor];
      && t == s.(
           runs := s.runs[run := s.runs[run].(status := RunFailed)],
           pipelines := s.pipelines - {actor}, queue := t.queue)
      && t.queue == if actor.Worker? && actor.job in s.queue
                    then s.queue[actor.job := s.queue[actor.job].(pc := AppFailure)] else s.queue
  {
  }

  /** A retryable exception ends the pipeline and leaves its run as it is. */
  lemma InterruptedExactly(s: State, actor: Actor)
    requires actor in s.pipelines
    ensures var t := Next(s, Interrupted(actor));
      && t == s.(pipelines := s.pipelines - {actor}, queue := t.queue)
      && t.queue == if actor.Worker? && actor.job in s.queue
                    then s.queue[actor.job := s.queue[actor.job].(pc := Transient)] else s.queue
  {
  }

  lemma CompleteCommits(s: State, actor: Actor, out: Output)
    requires actor in s.pipelines && s.pipelines[actor] in s.runs
    requires ValidOutput(out, s.runs[s.pipelines[actor]].horizon)
    ensures var t, run := Next(s, Complete(actor, out)), s.pipelines[actor];
      && t.runs == s.runs[run := s.runs[run].(status := Completed)]
      && t.jobs == s.jobs && t.calls == s.calls && t.pipelines == s.pipelines - {actor}
      && t.queue == (if actor.Worker? && actor.job in s.queue
                     then s.queue[actor.job := s.queue[actor.job].(pc := Wrote)] else s.queue)
      && t.predictions == ReplaceRows(s.predictions, s.runs[run].user, run, out.predictions)
      && t.metrics == ReplaceRows(s.metrics, s.runs[run].user, run, [out.metrics])
  {
  }

  /** A final write completes its run and makes the output what the run stores; no other run is touched. */
  lemma CompleteExactly(s: State, actor: Actor, out: Output, other: RunId)
    requires Inv(s) && actor in s.pipelines && s.pipelines[actor] in s.runs
    requires ValidOutput(out, s.runs[s.pipelines[actor]].horizon)
    ensures var t, run := Next(s, Complete(actor, out)), s.pipelines[actor];
      && t.runs == s.runs[run := s.runs[run].(status := Completed)]
      && t.jobs == s.jobs && t.calls == s.calls && t.pipelines == s.pipelines - {actor}
      && t.queue == (if actor.Worker? && actor.job in s.queue
                     then s.queue[actor.job := s.queue[actor.job].(pc := Wrote)] else s.queue)
      && RowsOf(t.predictions, other) == (if other == run then out.predictions else RowsOf(s.predictions, other))
      && RowsOf(t.metrics, other) == (if other == run then [out.metrics] else RowsOf(s.metrics, other))
  {
    hide Inv, Next, ValidOutput;
    var user, run := s.runs[s.pipelines[actor]].user, s.pipelines[actor];
    CompleteCommits(s, actor, out);
    StoredRowsOwned(s, run);
    ReplacementIsExact(s.predictions, user, run, out.predictions, other);
    ReplacementIsExact(s.metrics, user, run, [out.metrics], other);
  }

  lemma StoredRowsOwned(s: State, run: RunId)
    requires Inv(s) && run in s.runs
    ensures OwnedBy(s.predictions, run, s.runs[run].user) && OwnedBy(s.metrics, run, s.runs[run].user)
  {
  }

  // ----- the worker and RQ --------------------------------------------------------------------------------

  /** A cancelled job is left alone; any other is started once more, unless its run has another active job. */
  function AfterLoad(s: State, j: JobId): State
    requires j in s.jobs && j in s.queue
  {
    var job, m := s.jobs[j], s.queue[j];
    if job.status == Cancelled then s.(queue := s.queue[j := m.(pc := Returning)])
    else if !Active(job.status) && HasActive(s, job.run) then
      s.(queue := s.queue[j := m.(pc := Raising, missedStarts := m.missedStarts + 1)])
    else
      s.(queue := s.queue[j := m.(pc := Loaded)],
         jobs := s.jobs[j := job.(status := Started, attempts := job.attempts + 1)])
  }

  lemma LoadedRow(s: State, j: JobId)
    requires PcIs(s, j, Fetched) && j in s.jobs
    requires s.jobs[j].user == s.queue[j].user && s.jobs[j].run == s.queue[j].run
    ensures Next(s, Load(j)) == AfterLoad(s, j)
  {
  }

  /** A message that names another owner or run than its row, or no row at all, is raised and nothing written. */
  lemma MismatchIsRaised(s: State, j: JobId)
    requires PcIs(s, j, Fetched)
    requires j in s.jobs ==> s.jobs[j].user != s.queue[j].user || s.jobs[j].run != s.queue[j].run
    ensures Next(s, Load(j)) == s.(queue := s.queue[j := s.queue[j].(pc := Raising)])
  {
  }

  lemma LoadExactly(s: State, j: JobId)
    requires Inv(s) && PcIs(s, j, Fetched)
    ensures j in s.jobs && Next(s, Load(j)) == AfterLoad(s, j)
  {
    hide Inv, Next, AfterLoad;
    InvariantAt(s, j);
    LoadedRow(s, j);
  }

  lemma RecordingExactly(s: State, j: JobId)
    requires j in s.jobs && j in s.queue
    ensures s.queue[j].pc == Wrote ==> Next(s, MarkFinished(j)) == s.(
      jobs := s.jobs[j := s.jobs[j].(status := Finished)],
      queue := s.queue[j := s.queue[j].(pc := Returning, finishedOnce := true)])
    ensures s.queue[j].pc == AppFailure ==> Next(s, MarkAppFailure(j)) == s.(
      jobs := s.jobs[j := s.jobs[j].(status := Failed)], queue := s.queue[j := s.queue[j].(pc := Returning)])
  {
  }

  lemma RecordingTransientExactly(s: State, j: JobId)
    requires j in s.jobs && PcIs(s, j, Transient)
    ensures var status := if s.jobs[j].attempts < s.jobs[j].maxRetries then Retrying else Failed;
      Next(s, MarkUnexpected(j)) == s.(
        jobs := s.jobs[j := s.jobs[j].(status := status)], queue := s.queue[j := s.queue[j].(pc := Raising)])
  {
  }

  /** The queue hands out a waiting message, and a normal return finishes it. */
  lemma FetchExactly(s: State, j: JobId)
    requires j in s.queue
    ensures Waiting(s.queue[j]) ==> Next(s, Fetch(j)) == s.(
      queue := s.queue[j := s.queue[j].(rq := RqStarted, executions := s.queue[j].executions + 1, pc := Fetched)])
    ensures s.queue[j].pc == Returning ==>
      Next(s, RqSuccess(j)) == s.(queue := s.queue[j := s.queue[j].(rq := RqFinished, pc := Idle)])
  {
  }

  /** After a raise or a death the message waits again, with one retry less, exactly while retries were left. */
  lemma RaiseExactly(s: State, j: JobId, delayed: bool)
    requires PcIs(s, j, Raising)
    ensures var m := s.queue[j];
      && Next(s, RqFailure(j, delayed)) == s.(
           queue := s.queue[j :=
             if m.retriesLeft == 0 then m.(rq := RqFailed, pc := Idle)
             else m.(rq := if delayed then RqScheduled else RqQueued, retriesLeft := m.retriesLeft - 1, pc := Idle)])
      && Next(s, WorkerDies(j, delayed)).queue == Next(s, RqFailure(j, delayed)).queue
  {
  }
}
