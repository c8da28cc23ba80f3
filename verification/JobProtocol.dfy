/**
  The job and run protocol as a state machine. One action is one committed transaction, one
  change RQ makes to a message, or one return to a caller, so a run of the machine is an
  interleaving of any number of API calls and workers.
  */
module JobProtocol {
  import opened Wrappers
  import opened JobRules
  import opened ForecastTables

  type JobId = nat
  type CallId = nat

  datatype Run = Run(user: UserId, horizon: nat, status: RunStatus)

  /** `job_type` and `entity_type` have one value each, so a row keeps only the run it is about. */
  datatype Job = Job(user: UserId, run: RunId, status: JobStatus, attempts: nat, maxRetries: nat)

  /** How far the worker that holds a message has come. */
  datatype WorkerPc =
    | Idle        // no worker holds the message
    | Fetched     // dequeued, job row not yet loaded
    | Loaded      // row marked started, run not yet taken
    | Computing   // run set to running, pipeline in flight
    | Wrote       // predictions and "completed" committed
    | AppFailure  // an AppError is about to be recorded
    | Transient   // a retryable exception is about to be recorded
    | Returning   // recorded, about to return to RQ
    | Raising     // recorded, about to raise to RQ

  /**
    The last fields are history: tries begun, tries that ended before they could mark the start, and
    whether the job was ever recorded as finished.
    */
  datatype Message = Message(
    user: UserId, run: RunId, rq: RqStatus, retriesLeft: nat, pc: WorkerPc,
    executions: nat, missedStarts: nat, finishedOnce: bool)

  datatype Reason =
    | RunNotFound
    | JobNotFound
    | RunNotProcessable
    | InputsMissing
    | JobNotRetryable
    | RetryLimitExceeded
    | DuplicateActiveJob
    | QueueUnavailable

  /** Where an enqueue or retry call stands between its transactions, and how it ended. */
  datatype Call =
    | EnqueueChecked(user: UserId, run: RunId)
    | RetryChecked(user: UserId, run: RunId, seen: RunStatus)
    | LostRace(user: UserId, run: RunId)
    | Inserted(job: JobId)
    | DispatchFailed(job: JobId)
    | Answered(job: JobId)
    | Refused(reason: Reason)

  datatype Actor = Api(call: CallId) | Worker(job: JobId)

  /** `last` is history: the most recent output each run committed. */
  datatype State = State(
    runs: map<RunId, Run>,
    jobs: map<JobId, Job>,
    queue: map<JobId, Message>,
    calls: map<CallId, Call>,
    pipelines: map<Actor, RunId>,
    predictions: seq<PredictionRow>,
    metrics: seq<MetricRow>,
    last: map<RunId, Output>)

  const INIT := State(map[], map[], map[], map[], map[], [], [], map[])

  datatype RunWrite = RunWrite(run: RunId, row: Run)
  datatype CallWrite = CallWrite(call: CallId, now: Call)
  datatype OutputWrite = OutputWrite(user: UserId, run: RunId, out: Output)
  datatype PipelineWrite = Keep | Enter(actor: Actor, run: RunId) | Exit(actor: Actor)

  /**
    What one step writes: at most one job row and one message, both at `at`, one run row, one
    call, one pipeline entry or exit, and one replacement of a run's stored output.
    */
  datatype Effect = Effect(
    at: JobId,
    job: Option<Job>,
    message: Option<Message>,
    run: Option<RunWrite>,
    call: Option<CallWrite>,
    pipeline: PipelineWrite,
    output: Option<OutputWrite>)

  const NOTHING := Effect(0, None, None, None, None, Keep, None)

  function Commit(s: State, e: Effect): State {
    State(
      match e.run case None => s.runs case Some(w) => s.runs[w.run := w.row],
      match e.job case None => s.jobs case Some(job) => s.jobs[e.at := job],
      match e.message case None => s.queue case Some(m) => s.queue[e.at := m],
      match e.call case None => s.calls case Some(w) => s.calls[w.call := w.now],
      match e.pipeline
        case Keep => s.pipelines
        case Enter(actor, run) => s.pipelines[actor := run]
        case Exit(actor) => s.pipelines - {actor},
      match e.output
        case None => s.predictions
        case Some(w) => ReplaceRows(s.predictions, w.user, w.run, w.out.predictions),
      match e.output
        case None => s.metrics
        case Some(w) => ReplaceRows(s.metrics, w.user, w.run, [w.out.metrics]),
      match e.output case None => s.last case Some(w) => s.last[w.run := w.out])
  }

  datatype Action =
    // API transactions
    | CreateRun(run: RunId, user: UserId, horizon: nat)
    | EnqueueCheck(call: CallId, user: UserId, run: RunId, inputsOk: bool)
    | EnqueueInsert(call: CallId, job: JobId, maxRetries: nat)
    | ResolveLostRace(call: CallId)
    | RetryCheck(call: CallId, user: UserId, job: JobId, inputsOk: bool)
    | RetryInsert(call: CallId, job: JobId, maxRetries: nat)
    | Dispatch(call: CallId, delivered: bool)
    | MarkEnqueueFailed(call: CallId)
    | Reconcile(job: JobId)
    | CancelJob(job: JobId)
    | CancelRun(run: RunId)
    | DirectBegin(call: CallId, user: UserId, run: RunId, depsReady: bool)
    // worker transactions
    | Load(job: JobId)
    | Begin(job: JobId, depsReady: bool)
    | TransientBeforeBegin(job: JobId)
    | MarkFinished(job: JobId)
    | MarkAppFailure(job: JobId)
    | MarkUnexpected(job: JobId)
    // pipeline outcomes, for a worker or a direct call
    | Complete(actor: Actor, out: Output)
    | PipelineFails(actor: Actor)
    | Interrupted(actor: Actor)
    // what RQ does with a message
    | Fetch(job: JobId)
    | RqSuccess(job: JobId)
    | RqFailure(job: JobId, delayed: bool)
    | WorkerDies(job: JobId, delayed: bool)

  // ----- reads ---------------------------------------------------------------------------

  predicate ActiveFor(s: State, j: JobId, run: RunId) {
    j in s.jobs && s.jobs[j].run == run && Active(s.jobs[j].status)
  }

  /** What the partial unique index looks for, whoever owns the job. */
  predicate HasActive(s: State, run: RunId) {
    exists j :: j in s.jobs && ActiveFor(s, j, run)
  }

  /** get_active_job_for_entity also filters by owner. */
  ghost function ActiveJobOf(s: State, user: UserId, run: RunId): Option<JobId> {
    if exists j :: j in s.jobs && ActiveFor(s, j, run) && s.jobs[j].user == user then
      var j :| j in s.jobs && ActiveFor(s, j, run) && s.jobs[j].user == user;
      Some(j)
    else None
  }

  predicate OwnsRun(s: State, user: UserId, run: RunId) {
    run in s.runs && s.runs[run].user == user
  }

  predicate PcIs(s: State, j: JobId, pc: WorkerPc) {
    j in s.queue && s.queue[j].pc == pc
  }

  predicate Waiting(m: Message) {
    m.pc == Idle && (m.rq.RqQueued? || m.rq.RqScheduled?)
  }

  // ----- pieces of effects -------------------------------------------------------------------

  function Says(c: CallId, now: Call): Effect {
    NOTHING.(call := Some(CallWrite(c, now)))
  }

  function StatusWrite(s: State, j: JobId, status: JobStatus): Effect
    requires j in s.jobs
  {
    NOTHING.(at := j, job := Some(s.jobs[j].(status := status)))
  }

  function RunStatusWrite(s: State, run: RunId, status: RunStatus): Option<RunWrite>
    requires run in s.runs
  {
    Some(RunWrite(run, s.runs[run].(status := status)))
  }

  function MoveWorker(s: State, j: JobId, pc: WorkerPc): Effect
    requires j in s.queue
  {
    NOTHING.(at := j, message := Some(s.queue[j].(pc := pc)))
  }

  // ----- API transactions --------------------------------------------------------------------

  function DoCreateRun(s: State, run: RunId, user: UserId, horizon: nat): Effect {
    if run in s.runs then NOTHING else NOTHING.(run := Some(RunWrite(run, Run(user, horizon, Pending))))
  }

  ghost function DoEnqueueCheck(s: State, c: CallId, user: UserId, run: RunId, inputsOk: bool): Effect {
    if c in s.calls then NOTHING
    else if !OwnsRun(s, user, run) then Says(c, Refused(RunNotFound))
    else match ActiveJobOf(s, user, run)
      case Some(j) => Says(c, Answered(j))
      case None =>
        if !RunProcessable(s.runs[run].status) then Says(c, Refused(RunNotProcessable))
        else if !inputsOk then Says(c, Refused(InputsMissing))
        else Says(c, EnqueueChecked(user, run))
  }

  function DoEnqueueInsert(s: State, c: CallId, j: JobId, maxRetries: nat): Effect {
    if c !in s.calls || !s.calls[c].EnqueueChecked? || j in s.jobs then NOTHING
    else
      var EnqueueChecked(user, run) := s.calls[c];
      if HasActive(s, run) then Says(c, LostRace(user, run))
      else Says(c, Inserted(j)).(at := j, job := Some(Job(user, run, Queued, 0, maxRetries)))
  }

  ghost function DoResolveLostRace(s: State, c: CallId): Effect {
    if c !in s.calls || !s.calls[c].LostRace? then NOTHING
    else match ActiveJobOf(s, s.calls[c].user, s.calls[c].run)
      case Some(j) => Says(c, Answered(j))
      case None => Says(c, Refused(DuplicateActiveJob))
  }

  ghost function DoRetryCheck(s: State, c: CallId, user: UserId, j: JobId, inputsOk: bool): Effect {
    if c in s.calls then NOTHING
    else if j !in s.jobs || s.jobs[j].user != user then Says(c, Refused(JobNotFound))
    else
      var job := s.jobs[j];
      if job.status != Failed then Says(c, Refused(JobNotRetryable))
      else if job.attempts >= job.maxRetries then Says(c, Refused(RetryLimitExceeded))
      else if !OwnsRun(s, user, job.run) then Says(c, Refused(RunNotFound))
      else match ActiveJobOf(s, user, job.run)
        case Some(active) => Says(c, Answered(active))
        case None =>
          if !RunProcessable(s.runs[job.run].status) then Says(c, Refused(RunNotProcessable))
          else if !inputsOk then Says(c, Refused(InputsMissing))
          else Says(c, RetryChecked(user, job.run, s.runs[job.run].status))
  }

  /**
    One transaction: set the run to pending and insert the job. A run read as pending at the
    check is not written, because an unchanged attribute is left out of the update.
    */
  function DoRetryInsert(s: State, c: CallId, j: JobId, maxRetries: nat): Effect {
    if c !in s.calls || !s.calls[c].RetryChecked? || j in s.jobs || s.calls[c].run !in s.runs then NOTHING
    else
      var RetryChecked(user, run, seen) := s.calls[c];
      if HasActive(s, run) then Says(c, Refused(DuplicateActiveJob))
      else
        Says(c, Inserted(j)).(
          at := j,
          job := Some(Job(user, run, Queued, 0, maxRetries)),
          run := if seen == Pending then None else RunStatusWrite(s, run, Pending))
  }

  function NewMessage(job: Job): Message {
    Message(job.user, job.run, RqQueued, ExecutionsGranted(job.maxRetries) - 1, Idle, 0, 0, false)
  }

  function DoDispatch(s: State, c: CallId, delivered: bool): Effect {
    if c !in s.calls || !s.calls[c].Inserted? || s.calls[c].job !in s.jobs then NOTHING
    else
      var j := s.calls[c].job;
      if delivered then Says(c, Answered(j)).(at := j, message := Some(NewMessage(s.jobs[j])))
      else Says(c, DispatchFailed(j))
  }

  /** _mark_enqueue_failed writes "failed" whatever the row holds by then. */
  function DoMarkEnqueueFailed(s: State, c: CallId): Effect {
    if c !in s.calls || !s.calls[c].DispatchFailed? || s.calls[c].job !in s.jobs then NOTHING
    else StatusWrite(s, s.calls[c].job, Failed).(call := Some(CallWrite(c, Refused(QueueUnavailable))))
  }

  function DoReconcile(s: State, j: JobId): Effect {
    if j !in s.jobs || Terminal(s.jobs[j].status) || j !in s.queue then NOTHING
    else match MapRqStatus(Some(s.queue[j].rq))
      case None => NOTHING
      case Some(mapped) =>
        if mapped.Cancelled? || mapped.Failed? || mapped.Finished? || mapped.Started? then StatusWrite(s, j, mapped)
        else NOTHING
  }

  /** Cancel in RQ if the message exists, then cancel the job and, unconditionally, its run. */
  function DoCancelJob(s: State, j: JobId): Effect {
    if j !in s.jobs || !JobCancellable(s.jobs[j].status) || s.jobs[j].run !in s.runs then NOTHING
    else
      StatusWrite(s, j, Cancelled).(
        message := if j in s.queue then Some(s.queue[j].(rq := RqCanceled)) else None,
        run := RunStatusWrite(s, s.jobs[j].run, RunCancelled))
  }

  function DoCancelRun(s: State, run: RunId): Effect {
    if run !in s.runs || !RunCancellable(s.runs[run].status) then NOTHING
    else NOTHING.(run := RunStatusWrite(s, run, RunCancelled))
  }

  // ----- processing a run --------------------------------------------------------------------

  /** What process_forecast_run does up to and including its "running" commit. */
  datatype Start = Rejected | DepsMissing | Taken

  function StartOf(s: State, user: UserId, run: RunId, depsReady: bool): (r: Start)
    ensures r != Rejected ==> run in s.runs
  {
    if !OwnsRun(s, user, run) || !RunProcessable(s.runs[run].status) then Rejected
    else if !depsReady then DepsMissing
    else Taken
  }

  function DoDirectBegin(s: State, c: CallId, user: UserId, run: RunId, depsReady: bool): Effect {
    if Api(c) in s.pipelines then NOTHING
    else match StartOf(s, user, run, depsReady)
      case Rejected => NOTHING
      case DepsMissing => NOTHING.(run := RunStatusWrite(s, run, RunFailed))
      case Taken => NOTHING.(run := RunStatusWrite(s, run, Running), pipeline := Enter(Api(c), run))
  }

  /** The pipeline of `actor` is over; a worker goes on to `pc`. */
  function Leave(s: State, actor: Actor, pc: WorkerPc): Effect {
    var base := if actor.Worker? && actor.job in s.queue then MoveWorker(s, actor.job, pc) else NOTHING;
    base.(pipeline := Exit(actor))
  }

  function DoPipelineFails(s: State, actor: Actor): Effect {
    if actor !in s.pipelines || s.pipelines[actor] !in s.runs then NOTHING
    else Leave(s, actor, AppFailure).(run := RunStatusWrite(s, s.pipelines[actor], RunFailed))
  }

  /**
    The final write: replace the rows, set "completed". The unique key on (run, product, date)
    cannot refuse it, because a pipeline output holds every product-day once.
    */
  function DoComplete(s: State, actor: Actor, out: Output): Effect {
    if actor !in s.pipelines || s.pipelines[actor] !in s.runs then NOTHING
    else
      var run := s.pipelines[actor];
      if !ValidOutput(out, s.runs[run].horizon) then NOTHING
      else
        Leave(s, actor, Wrote).(
          run := RunStatusWrite(s, run, Completed),
          output := Some(OutputWrite(s.runs[run].user, run, out)))
  }

  /** A retryable exception escapes and leaves the run "running". */
  function DoInterrupted(s: State, actor: Actor): Effect {
    if actor !in s.pipelines then NOTHING else Leave(s, actor, Transient)
  }

  // ----- worker transactions -----------------------------------------------------------------

  function MissedStart(m: Message): Message {
    m.(missedStarts := m.missedStarts + 1)
  }

  /**
    A message that runs again after its outcome was recorded finds its row finished or failed, and
    marks it started all the same. The unique index on active jobs refuses that when the run has an
    active job by then: the write is rolled back and the error goes to RQ.
    */
  function DoLoad(s: State, j: JobId): Effect {
    if !PcIs(s, j, Fetched) then NOTHING
    else if j !in s.jobs || s.jobs[j].user != s.queue[j].user || s.jobs[j].run != s.queue[j].run then
      MoveWorker(s, j, Raising)
    else if s.jobs[j].status == Cancelled then MoveWorker(s, j, Returning)
    else if Terminal(s.jobs[j].status) && HasActive(s, s.jobs[j].run) then
      NOTHING.(at := j, message := Some(MissedStart(s.queue[j]).(pc := Raising)))
    else
      MoveWorker(s, j, Loaded).(
        job := Some(s.jobs[j].(status := Started, attempts := s.jobs[j].attempts + 1)))
  }

  function DoBegin(s: State, j: JobId, depsReady: bool): Effect {
    if !PcIs(s, j, Loaded) then NOTHING
    else
      var run := s.queue[j].run;
      match StartOf(s, s.queue[j].user, run, depsReady)
      case Rejected => MoveWorker(s, j, AppFailure)
      case DepsMissing => MoveWorker(s, j, AppFailure).(run := RunStatusWrite(s, run, RunFailed))
      case Taken =>
        MoveWorker(s, j, Computing).(
          run := RunStatusWrite(s, run, Running), pipeline := Enter(Worker(j), run))
  }

  function DoTransientBeforeBegin(s: State, j: JobId): Effect {
    if PcIs(s, j, Loaded) then MoveWorker(s, j, Transient) else NOTHING
  }

  /** A worker at `from` records `status` and goes on to `to`. */
  function DoMark(s: State, j: JobId, from: WorkerPc, status: JobStatus, to: WorkerPc): Effect {
    if !PcIs(s, j, from) || j !in s.jobs then NOTHING
    else
      var once := s.queue[j].finishedOnce || status == Finished;
      StatusWrite(s, j, status).(message := Some(s.queue[j].(pc := to, finishedOnce := once)))
  }

  /** After a retryable exception: retrying while attempts remain, failed otherwise. */
  function AfterTransient(job: Job): JobStatus {
    if job.attempts < job.maxRetries then Retrying else Failed
  }

  function DoMarkUnexpected(s: State, j: JobId): Effect {
    if j !in s.jobs then NOTHING else DoMark(s, j, Transient, AfterTransient(s.jobs[j]), Raising)
  }

  // ----- what RQ does ------------------------------------------------------------------------

  function DoFetch(s: State, j: JobId): Effect {
    if j !in s.queue || !Waiting(s.queue[j]) then NOTHING
    else
      var m := s.queue[j];
      NOTHING.(at := j, message := Some(m.(rq := RqStarted, executions := m.executions + 1, pc := Fetched)))
  }

  function DoRqSuccess(s: State, j: JobId): Effect {
    if !PcIs(s, j, Returning) then NOTHING
    else NOTHING.(at := j, message := Some(s.queue[j].(rq := RqFinished, pc := Idle)))
  }

  /** A raise is retried while retries are left, after the interval or at once. */
  function AfterRaise(m: Message, delayed: bool): Message {
    if m.retriesLeft == 0 then m.(rq := RqFailed, pc := Idle)
    else m.(rq := if delayed then RqScheduled else RqQueued, retriesLeft := m.retriesLeft - 1, pc := Idle)
  }

  function DoRqFailure(s: State, j: JobId, delayed: bool): Effect {
    if !PcIs(s, j, Raising) then NOTHING
    else NOTHING.(at := j, message := Some(AfterRaise(s.queue[j], delayed)))
  }

  /** Death counts as a raise. It can strike at any point, even after the outcome was recorded. */
  function DoWorkerDies(s: State, j: JobId, delayed: bool): Effect {
    if j !in s.queue || s.queue[j].pc == Idle then NOTHING
    else
      var m := s.queue[j];
      var counted := if m.pc == Fetched then MissedStart(m) else m;
      NOTHING.(at := j, message := Some(AfterRaise(counted, delayed)), pipeline := Exit(Worker(j)))
  }

  // ----- the machine -------------------------------------------------------------------------

  /** What a step writes. An action that does not apply writes nothing. */
  ghost function EffectOf(s: State, a: Action): Effect {
    match a
    case CreateRun(run, user, horizon) => DoCreateRun(s, run, user, horizon)
    case EnqueueCheck(c, user, run, inputsOk) => DoEnqueueCheck(s, c, user, run, inputsOk)
    case EnqueueInsert(c, j, maxRetries) => DoEnqueueInsert(s, c, j, maxRetries)
    case ResolveLostRace(c) => DoResolveLostRace(s, c)
    case RetryCheck(c, user, j, inputsOk) => DoRetryCheck(s, c, user, j, inputsOk)
    case RetryInsert(c, j, maxRetries) => DoRetryInsert(s, c, j, maxRetries)
    case Dispatch(c, delivered) => DoDispatch(s, c, delivered)
    case MarkEnqueueFailed(c) => DoMarkEnqueueFailed(s, c)
    case Reconcile(j) => DoReconcile(s, j)
    case CancelJob(j) => DoCancelJob(s, j)
    case CancelRun(run) => DoCancelRun(s, run)
    case DirectBegin(c, user, run, depsReady) => DoDirectBegin(s, c, user, run, depsReady)
    case Load(j) => DoLoad(s, j)
    case Begin(j, depsReady) => DoBegin(s, j, depsReady)
    case TransientBeforeBegin(j) => DoTransientBeforeBegin(s, j)
    case MarkFinished(j) => DoMark(s, j, Wrote, Finished, Returning)
    case MarkAppFailure(j) => DoMark(s, j, AppFailure, Failed, Returning)
    case MarkUnexpected(j) => DoMarkUnexpected(s, j)
    case Complete(actor, out) => DoComplete(s, actor, out)
    case PipelineFails(actor) => DoPipelineFails(s, actor)
    case Interrupted(actor) => DoInterrupted(s, actor)
    case Fetch(j) => DoFetch(s, j)
    case RqSuccess(j) => DoRqSuccess(s, j)
    case RqFailure(j, delayed) => DoRqFailure(s, j, delayed)
    case WorkerDies(j, delayed) => DoWorkerDies(s, j, delayed)
  }

  ghost function Next(s: State, a: Action): State {
    Commit(s, EffectOf(s, a))
  }

  ghost function Trace(s: State, actions: seq<Action>): State
    decreases |actions|
  {
    if actions == [] then s else Trace(Next(s, actions[0]), actions[1..])
  }

  /** A behaviour of the whole system: the states it goes through and the steps between them. */
  ghost predicate IsBehaviour(states: seq<State>, actions: seq<Action>) {
    && |states| == |actions| + 1
    && states[0] == INIT
    && forall i :: 0 <= i < |actions| ==> states[i + 1] == Next(states[i], actions[i])
  }

  /** Some interleaving, starting from the empty system, leads to this state. */
  ghost predicate Reachable(s: State) {
    exists states, actions :: IsBehaviour(states, actions) && states[|actions|] == s
  }

  lemma InitReachable()
    ensures Reachable(INIT)
  {
    assert IsBehaviour([INIT], []) && [INIT][0] == INIT;
  }

  lemma ReachableStep(s: State, a: Action)
    requires Reachable(s)
    ensures Reachable(Next(s, a))
  {
    var states, actions :| IsBehaviour(states, actions) && states[|actions|] == s;
    var states', actions' := states + [Next(s, a)], actions + [a];
    assert IsBehaviour(states', actions') && states'[|actions'|] == Next(s, a);
  }
}
