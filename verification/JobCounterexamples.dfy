/** Runs of the protocol, from the empty system, in which a wished-for property fails. */
module JobCounterexamples {
  import opened Wrappers
  import opened JobRules
  import opened ForecastTables
  import opened JobProtocol
  import opened JobInvariants
  import opened JobSafety
  import opened JobExclusion

  lemma Start() returns (s: State)
    ensures Reachable(s) && s == INIT
  {
    s := INIT;
    InitReachable();
  }

  lemma Take(s: State, a: Action) returns (t: State)
    requires Reachable(s)
    ensures Reachable(t) && t == Next(s, a)
  {
    ReachableStep(s, a);
    t := Next(s, a);
  }

  /** Run 0, with job 0 inserted by call 0 but not yet dispatched. */
  lemma InsertedJob(maxRetries: nat) returns (s: State)
    ensures Reachable(s)
    ensures s == INIT.(
      runs := map[0 := Run(0, 7, Pending)],
      jobs := map[0 := Job(0, 0, Queued, 0, maxRetries)],
      calls := map[0 := Inserted(0)])
  {
    s := Start();
    s := Take(s, CreateRun(0, 0, 7));
    s := Take(s, EnqueueCheck(0, 0, 0, true));
    assert s.calls == map[0 := EnqueueChecked(0, 0)];
    s := Take(s, EnqueueInsert(0, 0, maxRetries));
  }

  /** A cancelled job becomes failed: the one way out of the transition table is reachable. */
  lemma CancelledBecomesFailed() returns (s: State)
    ensures Reachable(s) && 0 in s.jobs && OverwritesCancellation(s, MarkEnqueueFailed(0), 0)
  {
    s := InsertedJob(3);
    s := Take(s, CancelJob(0));
    assert s.jobs[0].status == Cancelled;
    s := Take(s, Dispatch(0, false));
  }

  /** Dispatch, fetch and load, for a queued job whose call is about to dispatch it. */
  lemma Deliver(s: State, c: CallId, j: JobId, max: nat) returns (t: State)
    requires Reachable(s) && c in s.calls && s.calls[c] == Inserted(j)
    requires j in s.jobs && s.jobs[j] == Job(0, 0, Queued, 0, max)
    ensures Reachable(t) && t == s.(
      calls := s.calls[c := Answered(j)],
      jobs := s.jobs[j := Job(0, 0, Started, 1, max)],
      queue := s.queue[j := Message(0, 0, RqStarted, ExecutionsGranted(max) - 1, Loaded, 1, 0, false)])
  {
    t := Take(s, Dispatch(c, true));
    t := TakeFetch(t, j);
    t := TakeLoad(t, j);
  }

  lemma TakeFetch(s: State, j: JobId) returns (t: State)
    requires Reachable(s) && j in s.queue && Waiting(s.queue[j])
    ensures Reachable(t) && t == s.(
      queue := s.queue[j := s.queue[j].(rq := RqStarted, executions := s.queue[j].executions + 1, pc := Fetched)])
  {
    t := Take(s, Fetch(j));
  }

  lemma TakeLoad(s: State, j: JobId) returns (t: State)
    requires Reachable(s) && PcIs(s, j, Fetched) && j in s.jobs && s.jobs[j].status == Queued
    requires s.jobs[j].user == s.queue[j].user && s.jobs[j].run == s.queue[j].run
    ensures Reachable(t) && t == s.(
      jobs := s.jobs[j := s.jobs[j].(status := Started, attempts := s.jobs[j].attempts + 1)],
      queue := s.queue[j := s.queue[j].(pc := Loaded)])
  {
    t := Take(s, Load(j));
  }

  /** A worker dies early, the last try fails transiently: "retrying", and RQ will never retry. */
  lemma RetryingWithoutRetry() returns (s: State)
    ensures Reachable(s) && PcIs(s, 0, Transient) && 0 in s.jobs
    ensures LastChanceAfterMissedStart(s.queue[0], s.jobs[0].maxRetries)
    ensures AfterTransient(s.jobs[0]) == Retrying
  {
    s := InsertedJob(2);
    s := TakeDispatch(s);
    s := TakeFetch(s, 0);
    s := DieEarly(s);
    s := TakeFetch(s, 0);
    s := TakeLoad(s, 0);
    s := TakeTransient(s);
  }

  lemma TakeDispatch(s: State) returns (t: State)
    requires Reachable(s) && 0 in s.calls && s.calls[0] == Inserted(0)
    requires s.jobs == map[0 := Job(0, 0, Queued, 0, 2)]
    ensures Reachable(t) && t.jobs == s.jobs && t.queue == s.queue[0 := Message(0, 0, RqQueued, 1, Idle, 0, 0, false)]
  {
    t := Take(s, Dispatch(0, true));
  }

  lemma TakeTransient(s: State) returns (t: State)
    requires Reachable(s) && PcIs(s, 0, Loaded)
    ensures Reachable(t) && t.jobs == s.jobs && t.queue == s.queue[0 := s.queue[0].(pc := Transient)]
  {
    t := Take(s, TransientBeforeBegin(0));
  }

  lemma DieEarly(s: State) returns (t: State)
    requires Reachable(s) && 0 in s.queue && s.queue[0] == Message(0, 0, RqStarted, 1, Fetched, 1, 0, false)
    ensures Reachable(t) && t.jobs == s.jobs
    ensures t.queue == s.queue[0 := Message(0, 0, RqScheduled, 0, Idle, 1, 1, false)]
  {
    t := Take(s, WorkerDies(0, true));
  }

  /** Job 0 has failed, and so has run 0, because the dependencies were missing. */
  lemma FailedJob() returns (s: State)
    ensures Reachable(s)
    ensures s.runs == map[0 := Run(0, 7, RunFailed)] && s.jobs == map[0 := Job(0, 0, Failed, 1, 3)]
    ensures s.calls == map[0 := Answered(0)] && s.pipelines == map[]
    ensures 0 in s.queue && s.queue[0] == Message(0, 0, RqStarted, 2, Returning, 1, 0, false)
  {
    s := InsertedJob(3);
    s := Deliver(s, 0, 0, 3);
    s := Take(s, Begin(0, false));
    s := RecordFailure(s);
  }

  lemma RecordFailure(s: State) returns (t: State)
    requires Reachable(s) && s.jobs == map[0 := Job(0, 0, Started, 1, 3)]
    requires 0 in s.queue && s.queue[0] == Message(0, 0, RqStarted, 2, AppFailure, 1, 0, false)
    ensures Reachable(t) && t.jobs == map[0 := Job(0, 0, Failed, 1, 3)]
    ensures t.queue == s.queue[0 := Message(0, 0, RqStarted, 2, Returning, 1, 0, false)]
    ensures t.runs == s.runs && t.calls == s.calls && t.pipelines == s.pipelines
  {
    t := Take(s, MarkAppFailure(0));
  }

  /** Call 1 has checked a retry while call 2 processes the run directly; call 1 then inserts job 1. */
  lemma StaleReset() returns (s: State)
    ensures Reachable(s)
    ensures s.runs == map[0 := Run(0, 7, Pending)] && s.pipelines == map[Api(2) := 0]
    ensures 1 in s.jobs && s.jobs[1] == Job(0, 0, Queued, 0, 3) && 1 in s.calls && s.calls[1] == Inserted(1)
  {
    s := FailedJob();
    s := CheckRetry(s);
    s := Take(s, DirectBegin(2, 0, 0, true));
    assert s.runs == map[0 := Run(0, 7, Running)] && !HasActive(s, 0);
    s := ResetRun(s);
  }

  lemma CheckRetry(s: State) returns (t: State)
    requires Reachable(s) && s.jobs == map[0 := Job(0, 0, Failed, 1, 3)] && s.runs == map[0 := Run(0, 7, RunFailed)]
    requires 1 !in s.calls
    ensures Reachable(t) && t == s.(calls := s.calls[1 := RetryChecked(0, 0, RunFailed)])
  {
    assert !HasActive(s, 0);
    t := Take(s, RetryCheck(1, 0, 0, true));
  }

  lemma ResetRun(s: State) returns (t: State)
    requires Reachable(s) && 1 in s.calls && s.calls[1] == RetryChecked(0, 0, RunFailed)
    requires 1 !in s.jobs && !HasActive(s, 0) && s.runs == map[0 := Run(0, 7, Running)]
    ensures Reachable(t) && t.runs == map[0 := Run(0, 7, Pending)] && t.pipelines == s.pipelines
    ensures t.jobs == s.jobs[1 := Job(0, 0, Queued, 0, 3)] && t.calls == s.calls[1 := Inserted(1)]
  {
    t := Take(s, RetryInsert(1, 1, 3));
  }

  /** Two pipelines in flight for one run. */
  lemma TwoPipelines() returns (s: State)
    ensures Reachable(s)
    ensures Api(2) in s.pipelines && Worker(1) in s.pipelines && s.pipelines[Api(2)] == s.pipelines[Worker(1)]
  {
    s := StaleReset();
    s := Deliver(s, 1, 1, 3);
    s := BeginRun(s, 1);
  }

  lemma BeginRun(s: State, j: JobId) returns (t: State)
    requires Reachable(s) && s.runs == map[0 := Run(0, 7, Pending)]
    requires PcIs(s, j, Loaded) && s.queue[j].user == 0 && s.queue[j].run == 0
    ensures Reachable(t) && t == s.(
      runs := map[0 := Run(0, 7, Running)],
      queue := s.queue[j := s.queue[j].(pc := Computing)],
      pipelines := s.pipelines[Worker(j) := 0])
  {
    t := Take(s, Begin(j, true));
  }

  lemma {:induction false} EmptyIsValid(horizon: nat)
    ensures HorizonKeys([], 0, horizon) == [] && ValidOutput(NO_OUTPUT, horizon)
  {
    if horizon > 0 { EmptyIsValid(horizon - 1); }
  }

  /** Write an output and record the job as finished. */
  lemma FinishRun(s: State) returns (t: State)
    requires Reachable(s) && s.runs == map[0 := Run(0, 7, Running)] && s.jobs == map[0 := Job(0, 0, Started, 1, 3)]
    requires 0 in s.queue && s.queue[0] == Message(0, 0, RqStarted, 2, Computing, 1, 0, false)
    requires Worker(0) in s.pipelines && s.pipelines[Worker(0)] == 0
    ensures Reachable(t) && t.calls == s.calls
    ensures 0 in t.queue && t.queue[0] == Message(0, 0, RqStarted, 2, Returning, 1, 0, true)
    ensures t.runs == map[0 := Run(0, 7, Completed)] && t.jobs == map[0 := Job(0, 0, Finished, 1, 3)]
  {
    EmptyIsValid(7);
    t := Take(s, Complete(Worker(0), NO_OUTPUT));
    t := RecordFinished(t);
  }

  lemma RecordFinished(s: State) returns (t: State)
    requires Reachable(s) && s.jobs == map[0 := Job(0, 0, Started, 1, 3)]
    requires 0 in s.queue && s.queue[0] == Message(0, 0, RqStarted, 2, Wrote, 1, 0, false)
    ensures t.queue == s.queue[0 := Message(0, 0, RqStarted, 2, Returning, 1, 0, true)]
    ensures Reachable(t) && t.jobs == map[0 := Job(0, 0, Finished, 1, 3)] && t.runs == s.runs && t.calls == s.calls
  {
    t := Take(s, MarkFinished(0));
  }

  lemma TwoChecks() returns (s: State)
    ensures Reachable(s)
    ensures s == INIT.(
      runs := map[0 := Run(0, 7, Pending)],
      calls := map[0 := EnqueueChecked(0, 0), 1 := EnqueueChecked(0, 0)])
  {
    s := Start();
    s := Take(s, CreateRun(0, 0, 7));
    s := Take(s, EnqueueCheck(0, 0, 0, true));
    s := Take(s, EnqueueCheck(1, 0, 0, true));
  }

  /** Job 0 has finished run 0 while call 1 still waits with a check it made before. */
  lemma FinishedUnderStaleCheck() returns (s: State)
    ensures Reachable(s)
    ensures s.runs == map[0 := Run(0, 7, Completed)] && s.jobs == map[0 := Job(0, 0, Finished, 1, 3)]
    ensures 1 in s.calls && s.calls[1] == EnqueueChecked(0, 0)
    ensures 0 in s.queue && s.queue[0] == Message(0, 0, RqStarted, 2, Returning, 1, 0, true)
  {
    s := TwoChecks();
    s := InsertFirst(s);
    s := Deliver(s, 0, 0, 3);
    s := BeginRun(s, 0);
    s := FinishRun(s);
  }

  lemma InsertFirst(s: State) returns (t: State)
    requires Reachable(s) && s.jobs == map[] && 0 in s.calls && s.calls[0] == EnqueueChecked(0, 0)
    ensures Reachable(t)
    ensures t == s.(jobs := map[0 := Job(0, 0, Queued, 0, 3)], calls := s.calls[0 := Inserted(0)])
  {
    assert !HasActive(s, 0);
    t := Take(s, EnqueueInsert(0, 0, 3));
  }

  /** A run whose job has finished ends up cancelled. */
  lemma FinishedThenCancelled() returns (s: State)
    ensures Reachable(s) && 0 in s.jobs && s.jobs[0].status == Finished
    ensures s.jobs[0].run in s.runs && s.runs[s.jobs[0].run].status == RunCancelled
  {
    s := FinishedUnderStaleCheck();
    assert !HasActive(s, 0);
    s := Take(s, EnqueueInsert(1, 1, 3));
    assert s.jobs[1] == Job(0, 0, Queued, 0, 3);
    s := Take(s, CancelJob(1));
  }

  /** The worker dies after the outcome was recorded; RQ runs the message again. */
  lemma DieLate(s: State, once: bool) returns (t: State)
    requires Reachable(s)
    requires 0 in s.queue && s.queue[0] == Message(0, 0, RqStarted, 2, Returning, 1, 0, once)
    ensures Reachable(t) && t.jobs == s.jobs
    ensures 0 in t.queue && t.queue[0] == Message(0, 0, RqStarted, 1, Fetched, 2, 0, once)
  {
    t := Take(s, WorkerDies(0, false));
    t := TakeFetch(t, 0);
  }

  /** A finished job is about to be marked started: the second way out of the transition table. */
  lemma FinishedJobRestarts() returns (s: State)
    ensures Reachable(s) && 0 in s.jobs && s.jobs[0].status == Finished && RestartsEndedJob(s, Load(0), 0)
  {
    s := FinishedUnderStaleCheck();
    s := DieLate(s, true);
    assert !HasActive(s, 0);
  }

  /** The same for a failed job. */
  lemma FailedJobRestarts() returns (s: State)
    ensures Reachable(s) && 0 in s.jobs && s.jobs[0].status == Failed && RestartsEndedJob(s, Load(0), 0)
  {
    s := FailedJob();
    s := DieLate(s, false);
    assert !HasActive(s, 0);
  }

  lemma InsertRetry(s: State) returns (t: State)
    requires Reachable(s) && 1 in s.calls && s.calls[1] == RetryChecked(0, 0, RunFailed)
    requires 1 !in s.jobs && !HasActive(s, 0) && 0 in s.runs
    ensures Reachable(t) && t.queue == s.queue && t.jobs == s.jobs[1 := Job(0, 0, Queued, 0, 3)]
  {
    t := Take(s, RetryInsert(1, 1, 3));
  }

  /** A restart that the unique index refuses: the run has got a new job in the meantime. */
  lemma RestartRefused() returns (s: State)
    ensures Reachable(s) && PcIs(s, 0, Fetched) && 0 in s.jobs && s.jobs[0].status == Failed
    ensures Next(s, Load(0)).jobs == s.jobs && PcIs(Next(s, Load(0)), 0, Raising)
  {
    s := FailedJob();
    s := CheckRetry(s);
    assert !HasActive(s, 0);
    s := InsertRetry(s);
    s := DieLate(s, false);
    assert ActiveFor(s, 1, 0);
  }
}
