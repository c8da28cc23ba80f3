/**
  The services, the worker task and the repository as code that changes stored rows in place.
  Each method is one transaction; its contract says that it takes exactly one step of the protocol.
  */
module JobService {
  import opened Wrappers
  import opened JobRules
  import opened ForecastTables
  import opened JobProtocol
  import opened JobInvariants

  lemma OnlyActiveJob(s: State, user: UserId, run: RunId, j: JobId)
    requires UniqueActive(s) && ActiveFor(s, j, run) && s.jobs[j].user == user
    ensures ActiveJobOf(s, user, run) == Some(j)
  {
    var found := ActiveJobOf(s, user, run);
    assert found.Some? && ActiveFor(s, found.value, run);
  }

  predicate OtherActive(s: State, j: JobId)
    requires j in s.jobs
  {
    exists i :: i in s.jobs && i != j && ActiveFor(s, i, s.jobs[j].run)
  }

  /** What the index compares is the same for an update as for an insert, unless the row is active itself. */
  lemma OtherIsAny(s: State, j: JobId)
    requires UniqueActive(s) && j in s.jobs
    ensures OtherActive(s, j) <==> !Active(s.jobs[j].status) && HasActive(s, s.jobs[j].run)
  {
    if HasActive(s, s.jobs[j].run) {
      var i: JobId :| i in s.jobs && ActiveFor(s, i, s.jobs[j].run);
      assert i != j ==> OtherActive(s, j);
    }
  }

  datatype CancelOutcome = CancelDone | CancelNotFound | CancelRefused | CancelQueueDown

  class JobStore {
    var runs: map<RunId, Run>
    var jobs: map<JobId, Job>
    var queue: map<JobId, Message>
    var calls: map<CallId, Call>
    var pipelines: map<Actor, RunId>
    var predictions: seq<PredictionRow>
    var metrics: seq<MetricRow>
    ghost var last: map<RunId, Output>

    ghost function Now(): State
      reads this
    {
      State(runs, jobs, queue, calls, pipelines, predictions, metrics, last)
    }

    constructor ()
      ensures Now() == INIT && Inv(Now())
    {
      runs, jobs, queue, calls, pipelines := map[], map[], map[], map[], map[];
      predictions, metrics, last := [], [], map[];
    }

    // ----- repository -------------------------------------------------------------------------

    method SetJobStatus(j: JobId, status: JobStatus)
      requires j in jobs
      modifies this`jobs
      ensures jobs == old(jobs)[j := old(jobs[j]).(status := status)]
    {
      jobs := jobs[j := jobs[j].(status := status)];
    }

    /** The update, refused and rolled back if another job of the run is active: one of them would be too many. */
    method MarkJobStarted(j: JobId) returns (ok: bool)
      requires j in jobs
      modifies this`jobs
      ensures ok == !OtherActive(old(Now()), j)
      ensures jobs == if !ok then old(jobs)
        else old(jobs)[j := old(jobs[j]).(status := Started, attempts := old(jobs[j]).attempts + 1)]
    {
      if i: JobId :| i in jobs && i != j && jobs[i].run == jobs[j].run && Active(jobs[i].status) {
        assert ActiveFor(Now(), i, jobs[j].run);
        return false;
      }
      ok := true;
      var job := jobs[j];
      job := job.(status := Started);
      job := job.(attempts := job.attempts + 1);
      jobs := jobs[j := job];
    }

    method UpdateRunStatus(run: RunId, status: RunStatus)
      requires run in runs
      modifies this`runs
      ensures runs == old(runs)[run := old(runs[run]).(status := status)]
    {
      runs := runs[run := runs[run].(status := status)];
    }

    method MoveTo(j: JobId, pc: WorkerPc)
      requires j in queue
      modifies this`queue
      ensures queue == old(queue)[j := old(queue[j]).(pc := pc)]
    {
      queue := queue[j := queue[j].(pc := pc)];
    }

    method Record(c: CallId, now: Call)
      modifies this`calls
      ensures calls == old(calls)[c := now]
    {
      calls := calls[c := now];
    }

    /** The query orders by creation and takes one row; there never is a second. */
    method GetActiveJobForEntity(user: UserId, run: RunId) returns (found: Option<JobId>)
      requires UniqueActive(Now())
      ensures found == ActiveJobOf(Now(), user, run)
    {
      if j: JobId :| j in jobs && jobs[j].run == run && Active(jobs[j].status) && jobs[j].user == user {
        assert ActiveFor(Now(), j, run);
        OnlyActiveJob(Now(), user, run, j);
        return Some(j);
      }
      assert forall j :: j in jobs && ActiveFor(Now(), j, run) ==> jobs[j].user != user;
      return None;
    }

    /** The insert, refused by the partial unique index on active jobs. */
    method InsertJob(j: JobId, user: UserId, run: RunId, maxRetries: nat) returns (ok: bool)
      requires j !in jobs
      modifies this`jobs
      ensures ok == !HasActive(old(Now()), run)
      ensures jobs == if ok then old(jobs)[j := Job(user, run, Queued, 0, maxRetries)] else old(jobs)
    {
      if i: JobId :| i in jobs && jobs[i].run == run && Active(jobs[i].status) {
        assert ActiveFor(Now(), i, run);
        return false;
      }
      assert forall i :: i in jobs ==> !ActiveFor(Now(), i, run);
      jobs := jobs[j := Job(user, run, Queued, 0, maxRetries)];
      return true;
    }

    // ----- enqueue ----------------------------------------------------------------------------

    method CreateRun(run: RunId, user: UserId, horizon: nat)
      requires run !in runs
      modifies this`runs
      ensures Now() == Next(old(Now()), Action.CreateRun(run, user, horizon))
    {
      runs := runs[run := Run(user, horizon, Pending)];
    }

    method EnqueueCheck(c: CallId, user: UserId, run: RunId, inputsOk: bool)
      requires UniqueActive(Now()) && c !in calls
      modifies this`calls
      ensures Now() == Next(old(Now()), Action.EnqueueCheck(c, user, run, inputsOk))
    {
      if run !in runs || runs[run].user != user {
        Record(c, Refused(RunNotFound));
        return;
      }
      var active := GetActiveJobForEntity(user, run);
      if active.Some? {
        Record(c, Answered(active.value));
        return;
      }
      if !RunProcessable(runs[run].status) {
        Record(c, Refused(RunNotProcessable));
      } else if !inputsOk {
        Record(c, Refused(InputsMissing));
      } else {
        Record(c, EnqueueChecked(user, run));
      }
    }

    method EnqueueInsert(c: CallId, j: JobId, maxRetries: nat)
      requires c in calls && calls[c].EnqueueChecked? && j !in jobs
      modifies this`jobs, this`calls
      ensures Now() == Next(old(Now()), Action.EnqueueInsert(c, j, maxRetries))
    {
      var EnqueueChecked(user, run) := calls[c];
      var ok := InsertJob(j, user, run, maxRetries);
      if ok {
        Record(c, Inserted(j));
      } else {
        Record(c, LostRace(user, run));
      }
    }

    method ResolveLostRace(c: CallId)
      requires UniqueActive(Now()) && c in calls && calls[c].LostRace?
      modifies this`calls
      ensures Now() == Next(old(Now()), Action.ResolveLostRace(c))
    {
      var active := GetActiveJobForEntity(calls[c].user, calls[c].run);
      if active.Some? {
        Record(c, Answered(active.value));
      } else {
        Record(c, Refused(DuplicateActiveJob));
      }
    }

    // ----- retry ------------------------------------------------------------------------------

    method RetryCheck(c: CallId, user: UserId, j: JobId, inputsOk: bool)
      requires UniqueActive(Now()) && c !in calls
      modifies this`calls
      ensures Now() == Next(old(Now()), Action.RetryCheck(c, user, j, inputsOk))
    {
      if j !in jobs || jobs[j].user != user {
        Record(c, Refused(JobNotFound));
        return;
      }
      var job := jobs[j];
      if job.status != Failed {
        Record(c, Refused(JobNotRetryable));
        return;
      }
      if job.attempts >= job.maxRetries {
        Record(c, Refused(RetryLimitExceeded));
        return;
      }
      if job.run !in runs || runs[job.run].user != user {
        Record(c, Refused(RunNotFound));
        return;
      }
      var active := GetActiveJobForEntity(user, job.run);
      if active.Some? {
        Record(c, Answered(active.value));
      } else if !RunProcessable(runs[job.run].status) {
        Record(c, Refused(RunNotProcessable));
      } else if !inputsOk {
        Record(c, Refused(InputsMissing));
      } else {
        Record(c, RetryChecked(user, job.run, runs[job.run].status));
      }
    }

    /** The run is set to pending before the insert; a refused insert rolls it back. */
    method RetryInsert(c: CallId, j: JobId, maxRetries: nat)
      requires c in calls && calls[c].RetryChecked? && calls[c].run in runs && j !in jobs
      modifies this`runs, this`jobs, this`calls
      ensures Now() == Next(old(Now()), Action.RetryInsert(c, j, maxRetries))
    {
      var RetryChecked(user, run, seen) := calls[c];
      var savedRuns := runs;
      if seen != Pending {
        UpdateRunStatus(run, Pending);
      }
      var ok := InsertJob(j, user, run, maxRetries);
      if ok {
        Record(c, Inserted(j));
      } else {
        runs := savedRuns;
        Record(c, Refused(DuplicateActiveJob));
      }
    }

    // ----- dispatch ---------------------------------------------------------------------------

    /** retry stays None for a single try; otherwise RQ gets Retry(max = maxRetries - 1). */
    method Dispatch(c: CallId, delivered: bool)
      requires c in calls && calls[c].Inserted? && calls[c].job in jobs
      modifies this`queue, this`calls
      ensures Now() == Next(old(Now()), Action.Dispatch(c, delivered))
    {
      var j := calls[c].job;
      var job := jobs[j];
      var retries := 0;
      if job.maxRetries > 1 {
        retries := job.maxRetries - 1;
      }
      if delivered {
        queue := queue[j := Message(job.user, job.run, RqQueued, retries, Idle, 0, 0, false)];
        Record(c, Answered(j));
      } else {
        Record(c, DispatchFailed(j));
      }
    }

    method MarkEnqueueFailed(c: CallId)
      requires c in calls && calls[c].DispatchFailed? && calls[c].job in jobs
      modifies this`jobs, this`calls
      ensures Now() == Next(old(Now()), Action.MarkEnqueueFailed(c))
    {
      SetJobStatus(calls[c].job, Failed);
      Record(c, Refused(QueueUnavailable));
    }

    // ----- reconcile and cancel ---------------------------------------------------------------

    method Reconcile(j: JobId)
      requires j in jobs
      modifies this`jobs
      ensures Now() == Next(old(Now()), Action.Reconcile(j))
    {
      if jobs[j].status == Finished || jobs[j].status == Failed || jobs[j].status == Cancelled {
        return;
      }
      var mapped := MapRqStatus(if j in queue then Some(queue[j].rq) else None);
      if mapped.None? || mapped.value == jobs[j].status {
        assert j in queue && mapped.Some? ==> jobs[j] == jobs[j].(status := mapped.value);
        assert jobs == jobs[j := jobs[j]];
        return;
      }
      if mapped.value == Cancelled {
        SetJobStatus(j, Cancelled);
      } else if mapped.value == Failed {
        SetJobStatus(j, Failed);
      } else if mapped.value == Finished {
        SetJobStatus(j, Finished);
      } else if mapped.value == Started {
        SetJobStatus(j, Started);
      }
    }

    /** Cancel in RQ if the message is still there, then the job and, whatever its status, the run. */
    method CommitCancel(j: JobId)
      requires j in jobs && JobCancellable(jobs[j].status) && jobs[j].run in runs
      modifies this`jobs, this`queue, this`runs
      ensures Now() == Next(old(Now()), Action.CancelJob(j))
      ensures j in jobs && jobs[j].status == Cancelled
      ensures jobs[j].run in runs && runs[jobs[j].run].status == RunCancelled
    {
      if j in queue {
        queue := queue[j := queue[j].(rq := RqCanceled)];
      }
      var run := jobs[j].run;
      SetJobStatus(j, Cancelled);
      UpdateRunStatus(run, RunCancelled);
    }

    /**
      get_job reconciles unless the queue is down; then the guard, the cancel in RQ, and one
      transaction for job and run.
      */
    method CancelJob(user: UserId, j: JobId, queueReadable: bool, queueWritable: bool) returns (outcome: CancelOutcome)
      requires Inv(Now())
      modifies this`jobs, this`queue, this`runs
      ensures Inv(Now())
      ensures outcome.CancelDone? ==> j in jobs && j in old(jobs) && jobs[j].run in runs
      ensures outcome.CancelDone? ==> jobs[j].status == Cancelled && runs[jobs[j].run].status == RunCancelled
      ensures var seen := if queueReadable then Next(old(Now()), Action.Reconcile(j)) else old(Now());
        match outcome
        case CancelNotFound => Now() == old(Now()) && (j !in old(jobs) || old(jobs[j]).user != user)
        case CancelRefused => Now() == seen && j in jobs && !JobCancellable(jobs[j].status)
        case CancelQueueDown => Now() == seen && !queueWritable
        case CancelDone => Now() == Next(seen, Action.CancelJob(j)) && JobCancellable(seen.jobs[j].status)
    {
      if j !in jobs || jobs[j].user != user {
        return CancelNotFound;
      }
      if queueReadable {
        InvariantStep(Now(), Action.Reconcile(j));
        Reconcile(j);
      }
      if !JobCancellable(jobs[j].status) {
        return CancelRefused;
      }
      if !queueWritable {
        return CancelQueueDown;
      }
      InvariantAt(Now(), j);
      InvariantStep(Now(), Action.CancelJob(j));
      CommitCancel(j);
      return CancelDone;
    }

    method CancelRun(run: RunId) returns (ok: bool)
      requires run in runs
      modifies this`runs
      ensures ok == (old(runs[run]).status == Pending || old(runs[run]).status == Running)
      ensures Now() == Next(old(Now()), Action.CancelRun(run))
    {
      if runs[run].status != Pending && runs[run].status != Running {
        return false;
      }
      UpdateRunStatus(run, RunCancelled);
      return true;
    }

    // ----- processing a run -------------------------------------------------------------------

    /** process_forecast_run up to and including its "running" commit. */
    method BeginProcessing(actor: Actor, user: UserId, run: RunId, depsReady: bool) returns (start: Start)
      modifies this`runs, this`pipelines
      ensures start == StartOf(old(Now()), user, run, depsReady)
      ensures start == Rejected ==> runs == old(runs)
      ensures start == DepsMissing ==> runs == old(runs)[run := old(runs[run]).(status := RunFailed)]
      ensures start == Taken ==> runs == old(runs)[run := old(runs[run]).(status := Running)]
      ensures pipelines == if start == Taken then old(pipelines)[actor := run] else old(pipelines)
    {
      if run !in runs || runs[run].user != user {
        return Rejected;
      }
      if runs[run].status != Pending && runs[run].status != RunFailed {
        return Rejected;
      }
      if !depsReady {
        UpdateRunStatus(run, RunFailed);
        return DepsMissing;
      }
      UpdateRunStatus(run, Running);
      pipelines := pipelines[actor := run];
      return Taken;
    }

    method DirectBegin(c: CallId, user: UserId, run: RunId, depsReady: bool) returns (start: Start)
      requires Api(c) !in pipelines
      modifies this`runs, this`pipelines
      ensures Now() == Next(old(Now()), Action.DirectBegin(c, user, run, depsReady))
    {
      start := BeginProcessing(Api(c), user, run, depsReady);
    }

    /** Delete and insert, uncommitted. */
    method ReplaceResults(user: UserId, run: RunId, out: Output)
      modifies this`predictions, this`metrics
      ensures predictions == ReplaceRows(old(predictions), user, run, out.predictions)
      ensures metrics == ReplaceRows(old(metrics), user, run, [out.metrics])
    {
      predictions := DeleteRows(predictions, user, run);
      metrics := DeleteRows(metrics, user, run);
      predictions := predictions + NewRows(user, run, out.predictions);
      metrics := metrics + NewRows(user, run, [out.metrics]);
    }

    method LeaveProcessing(actor: Actor, pc: WorkerPc)
      modifies this`pipelines, this`queue
      ensures pipelines == old(pipelines) - {actor}
      ensures queue == if actor.Worker? && actor.job in old(queue)
                       then old(queue)[actor.job := old(queue)[actor.job].(pc := pc)] else old(queue)
    {
      pipelines := pipelines - {actor};
      if actor.Worker? && actor.job in queue {
        MoveTo(actor.job, pc);
      }
    }

    /** _mark_failed, for whichever reason. */
    method FailProcessing(actor: Actor)
      requires actor in pipelines && pipelines[actor] in runs
      modifies this`runs, this`pipelines, this`queue
      ensures Now() == Next(old(Now()), PipelineFails(actor))
    {
      UpdateRunStatus(pipelines[actor], RunFailed);
      LeaveProcessing(actor, AppFailure);
    }

    method CompleteProcessing(actor: Actor, out: Output)
      requires actor in pipelines && pipelines[actor] in runs
      requires ValidOutput(out, runs[pipelines[actor]].horizon)
      modifies this
      ensures Now() == Next(old(Now()), Complete(actor, out))
    {
      var run := pipelines[actor];
      ReplaceResults(runs[run].user, run, out);
      UpdateRunStatus(run, Completed);
      last := last[run := out];
      LeaveProcessing(actor, Wrote);
    }

    /**
      The end of process_forecast_run. A pipeline that raised marks the run failed. Otherwise the
      rows are replaced in one transaction; if that cannot be committed it is rolled back, and the
      run is marked failed as well.
      */
    method EndProcessing(actor: Actor, result: Option<Output>, persists: bool)
      requires actor in pipelines && pipelines[actor] in runs
      requires result.Some? ==> ValidOutput(result.value, runs[pipelines[actor]].horizon)
      modifies this
      ensures Now() == Next(
        old(Now()),
        if result.Some? && persists then Complete(actor, result.value) else PipelineFails(actor))
    {
      if result.None? {
        FailProcessing(actor);
      } else if persists {
        CompleteProcessing(actor, result.value);
      } else {
        var savedPredictions, savedMetrics := predictions, metrics;
        var run := pipelines[actor];
        ReplaceResults(runs[run].user, run, result.value);
        predictions, metrics := savedPredictions, savedMetrics;
        assert Now() == old(Now());
        FailProcessing(actor);
      }
    }

    // ----- the worker task ----------------------------------------------------------------------

    /** Load the row, check the payload, leave a cancelled job alone, mark the start unless the index refuses. */
    method WorkerLoad(j: JobId)
      requires UniqueActive(Now()) && PcIs(Now(), j, Fetched)
      modifies this`jobs, this`queue
      ensures Now() == Next(old(Now()), Load(j))
    {
      if j !in jobs || jobs[j].user != queue[j].user || jobs[j].run != queue[j].run {
        MoveTo(j, Raising);
        return;
      }
      if jobs[j].status == Cancelled {
        MoveTo(j, Returning);
        return;
      }
      OtherIsAny(Now(), j);
      var ok := MarkJobStarted(j);
      if ok {
        MoveTo(j, Loaded);
      } else {
        queue := queue[j := MissedStart(queue[j])];
        MoveTo(j, Raising);
      }
    }

    method WorkerBegin(j: JobId, depsReady: bool)
      requires PcIs(Now(), j, Loaded)
      modifies this`runs, this`pipelines, this`queue
      ensures Now() == Next(old(Now()), Begin(j, depsReady))
    {
      var m := queue[j];
      var start := BeginProcessing(Worker(j), m.user, m.run, depsReady);
      if start == Taken {
        MoveTo(j, Computing);
      } else {
        MoveTo(j, AppFailure);
      }
    }

    method WorkerFinish(j: JobId)
      requires PcIs(Now(), j, Wrote) && j in jobs
      modifies this`jobs, this`queue
      ensures Now() == Next(old(Now()), MarkFinished(j))
    {
      SetJobStatus(j, Finished);
      queue := queue[j := queue[j].(finishedOnce := true)];
      MoveTo(j, Returning);
    }

    /** _mark_non_retryable_failure: recorded, and RQ sees a normal return. */
    method WorkerAppFailure(j: JobId)
      requires PcIs(Now(), j, AppFailure) && j in jobs
      modifies this`jobs, this`queue
      ensures Now() == Next(old(Now()), MarkAppFailure(j))
    {
      SetJobStatus(j, Failed);
      MoveTo(j, Returning);
    }

    /** _mark_unexpected_failure: recorded, then raised to RQ. */
    method WorkerUnexpectedFailure(j: JobId)
      requires PcIs(Now(), j, Transient) && j in jobs
      modifies this`jobs, this`queue
      ensures Now() == Next(old(Now()), MarkUnexpected(j))
    {
      if jobs[j].attempts < jobs[j].maxRetries {
        SetJobStatus(j, Retrying);
      } else {
        SetJobStatus(j, Failed);
      }
      MoveTo(j, Raising);
    }
  }
}
