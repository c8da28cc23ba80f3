/** What every interleaving keeps. */
module JobInvariants {
  import opened Wrappers
  import opened JobRules
  import opened ForecastTables
  import opened JobProtocol

  // ----- coupling of one job row and its message -------------------------------------------

  /** Executions begun, granted and still waiting never exceed what dispatch granted. */
  predicate BudgetOk(m: Message, maxRetries: nat) {
    var total := ExecutionsGranted(maxRetries);
    if Waiting(m) then m.executions + 1 + m.retriesLeft == total
    else if m.pc != Idle then m.executions >= 1 && m.executions + m.retriesLeft == total
    else m.executions + m.retriesLeft <= total && (m.rq == RqFailed ==> m.executions == total)
  }

  /** Every execution either started the job, ended before it could, or is just about to. */
  predicate AttemptsOk(job: Job, m: Message) {
    var accounted := job.attempts + m.missedStarts + (if m.pc == Fetched then 1 else 0);
    if job.status == Cancelled then accounted <= m.executions else accounted == m.executions
  }

  predicate RqOk(m: Message) {
    match m.pc
    case Idle => (m.rq.RqQueued? || m.rq.RqScheduled? || m.rq.RqFinished? || m.rq.RqFailed? || m.rq.RqCanceled?)
    case Fetched => (m.rq.RqStarted? || m.rq.RqCanceled?)
    case Returning => (m.rq.RqStarted? || m.rq.RqCanceled?)
    case _ => m.rq == RqStarted
  }

  predicate StatusOk(status: JobStatus, m: Message) {
    match m.pc
    case Idle =>
      (match m.rq
       case RqFinished => Terminal(status)
       case RqCanceled => status == Cancelled
       case _ => true)
    case Fetched => m.rq == RqCanceled ==> status == Cancelled
    case Returning => Terminal(status)
    case Raising => (status.Retrying? || status.Started? || status.Failed? || status.Finished?)
    case _ => status == Started
  }

  predicate JobOk(job: Job, message: Option<Message>) {
    match message
    case None => (job.status.Queued? || job.status.Failed? || job.status.Cancelled?) && job.attempts == 0
    case Some(m) =>
      && m.user == job.user && m.run == job.run
      && BudgetOk(m, job.maxRetries)
      && AttemptsOk(job, m)
      && RqOk(m)
      && StatusOk(job.status, m)
      && (job.status == Finished ==> m.finishedOnce)
  }

  ghost predicate JobsOk(s: State) {
    && (forall j :: j in s.jobs ==> OwnsRun(s, s.jobs[j].user, s.jobs[j].run))
    && (forall j :: j in s.jobs ==> JobOk(s.jobs[j], Lookup(s.queue, j)))
    && (forall j :: j in s.queue ==> j in s.jobs)
  }

  ghost predicate UniqueActive(s: State) {
    forall i, j ::
      (i in s.jobs && j in s.jobs && Active(s.jobs[i].status) && Active(s.jobs[j].status)
       && s.jobs[i].run == s.jobs[j].run)
      ==> i == j
  }

  // ----- API calls -------------------------------------------------------------------------

  predicate AboutToDispatch(call: Call, j: JobId) {
    (call.Inserted? || call.DispatchFailed?) && call.job == j
  }

  predicate CallOk(s: State, call: Call) {
    match call
    case EnqueueChecked(user, run) => OwnsRun(s, user, run)
    case RetryChecked(user, run, seen) => OwnsRun(s, user, run) && RunProcessable(seen)
    case LostRace(user, run) => OwnsRun(s, user, run)
    case Inserted(j) => j in s.jobs && j !in s.queue && (s.jobs[j].status.Queued? || s.jobs[j].status.Cancelled?)
    case DispatchFailed(j) => j in s.jobs && j !in s.queue && (s.jobs[j].status.Queued? || s.jobs[j].status.Cancelled?)
    case Answered(j) => j in s.jobs
    case Refused(_) => true
  }

  ghost predicate CallsOk(s: State) {
    && (forall c :: c in s.calls ==> CallOk(s, s.calls[c]))
    && (forall c, d, j ::
          (c in s.calls && d in s.calls && AboutToDispatch(s.calls[c], j) && AboutToDispatch(s.calls[d], j))
          ==> c == d)
  }

  // ----- pipelines and stored rows -----------------------------------------------------------

  ghost predicate PipelinesOk(s: State) {
    && (forall a :: a in s.pipelines ==> s.pipelines[a] in s.runs)
    && (forall a :: a in s.pipelines && a.Worker? ==>
          PcIs(s, a.job, Computing) && s.queue[a.job].run == s.pipelines[a])
    && (forall j :: j in s.queue && s.queue[j].pc == Computing ==> Worker(j) in s.pipelines)
  }

  predicate RunStored(s: State, run: RunId)
    requires run in s.runs
  {
    if run in s.last then
      && RowsOf(s.predictions, run) == s.last[run].predictions
      && RowsOf(s.metrics, run) == [s.last[run].metrics]
      && ValidOutput(s.last[run], s.runs[run].horizon)
    else
      && RowsOf(s.predictions, run) == []
      && RowsOf(s.metrics, run) == []
      && s.runs[run].status != Completed
  }

  ghost predicate RowsOwned<T>(s: State, rows: seq<Stored<T>>) {
    forall row :: row in rows ==> OwnsRun(s, row.user, row.run)
  }

  ghost predicate StoreOk(s: State) {
    && (forall r :: r in s.runs ==> RunStored(s, r))
    && (forall r :: r in s.last ==> r in s.runs)
    && RowsOwned(s, s.predictions)
    && RowsOwned(s, s.metrics)
  }

  ghost predicate Inv(s: State) {
    JobsOk(s) && UniqueActive(s) && CallsOk(s) && PipelinesOk(s) && StoreOk(s)
  }

  // ----- jobs: a step writes a row and a message that fit together -----------------------------

  function JobAfter(s: State, e: Effect): Option<Job> {
    if e.job.Some? then e.job else Lookup(s.jobs, e.at)
  }

  function MessageAfter(s: State, e: Effect): Option<Message> {
    if e.message.Some? then e.message else Lookup(s.queue, e.at)
  }

  /** Owner and run of a row never change, and a new row belongs to the run's owner. */
  predicate SameSubject(s: State, e: Effect) {
    e.job.Some? ==>
      if e.at in s.jobs then e.job.value.user == s.jobs[e.at].user && e.job.value.run == s.jobs[e.at].run
      else OwnsRun(s, e.job.value.user, e.job.value.run)
  }

  predicate SameRunIdentity(s: State, e: Effect) {
    e.run.Some? && e.run.value.run in s.runs ==>
      && e.run.value.row.user == s.runs[e.run.value.run].user
      && e.run.value.row.horizon == s.runs[e.run.value.run].horizon
  }

  predicate WritesJob(e: Effect) {
    e.job.Some? || e.message.Some?
  }

  predicate JobEffectOk(s: State, e: Effect) {
    && SameSubject(s, e)
    && SameRunIdentity(s, e)
    && (WritesJob(e) ==> JobAfter(s, e).Some? && JobOk(JobAfter(s, e).value, MessageAfter(s, e)))
  }

  /** A row becomes active only where its run had no active row, or was active already. */
  predicate ActiveEffectOk(s: State, e: Effect) {
    e.job.Some? && Active(e.job.value.status) ==>
      || (e.at in s.jobs && Active(s.jobs[e.at].status))
      || !HasActive(s, e.job.value.run)
  }

  // ----- calls: nobody touches a job that another call is about to dispatch ---------------------

  predicate Undispatched(s: State, e: Effect, j: JobId) {
    && j !in s.queue
    && (e.at == j ==> e.message.None?)
    && (if e.at == j && e.job.Some? then (e.job.value.status.Queued? || e.job.value.status.Cancelled?)
        else j in s.jobs && (s.jobs[j].status.Queued? || s.jobs[j].status.Cancelled?))
  }

  predicate IsOwnCall(e: Effect, c: CallId) {
    e.call.Some? && e.call.value.call == c
  }

  ghost predicate CallEffectOk(s: State, e: Effect) {
    && (forall c :: c in s.calls && !IsOwnCall(e, c) && AboutToDispatch(s.calls[c], e.at) ==> Undispatched(s, e, e.at))
    && (e.call.Some? ==>
          match e.call.value.now
          case Inserted(j) => Undispatched(s, e, j) && NobodyElseDispatches(s, e, j)
          case DispatchFailed(j) => Undispatched(s, e, j) && NobodyElseDispatches(s, e, j)
          case now => CallOk(s, now))
  }

  ghost predicate NobodyElseDispatches(s: State, e: Effect, j: JobId) {
    forall c :: c in s.calls && !IsOwnCall(e, c) ==> !AboutToDispatch(s.calls[c], j)
  }

  // ----- pipelines and stored rows ---------------------------------------------------------------

  predicate PipelineEffectOk(s: State, e: Effect) {
    && (match e.pipeline
        case Keep => true
        case Enter(a, run) =>
          && run in s.runs
          && (a.Worker? ==>
                a.job == e.at && e.message.Some? && e.message.value.pc == Computing && e.message.value.run == run)
        case Exit(a) => a.Worker? ==> a.job == e.at && e.message.Some? && e.message.value.pc != Computing)
    && (e.message.Some? && e.message.value.pc == Computing ==> e.pipeline.Enter? && e.pipeline.actor == Worker(e.at))
    && (e.message.Some? && Worker(e.at) in s.pipelines ==> !e.pipeline.Keep? && e.pipeline.actor == Worker(e.at))
  }

  predicate StoreEffectOk(s: State, e: Effect) {
    && (e.run.Some? && e.run.value.row.status == Completed ==>
          e.output.Some? && e.output.value.run == e.run.value.run)
    && (e.output.Some? ==>
          && OwnsRun(s, e.output.value.user, e.output.value.run)
          && ValidOutput(e.output.value.out, s.runs[e.output.value.run].horizon))
  }

  ghost predicate EffectOk(s: State, e: Effect) {
    JobEffectOk(s, e) && ActiveEffectOk(s, e) && CallEffectOk(s, e) && PipelineEffectOk(s, e) && StoreEffectOk(s, e)
  }

  // ----- effects that concern one job only -------------------------------------------------------

  /** The invariant, seen from one job. */
  predicate InvAt(s: State, j: JobId) {
    && (j in s.queue ==> j in s.jobs)
    && (j in s.jobs ==> OwnsRun(s, s.jobs[j].user, s.jobs[j].run) && JobOk(s.jobs[j], Lookup(s.queue, j)))
    && (Worker(j) in s.pipelines ==> PcIs(s, j, Computing) && s.queue[j].run == s.pipelines[Worker(j)])
    && (PcIs(s, j, Computing) ==> Worker(j) in s.pipelines)
  }

  lemma InvariantAt(s: State, j: JobId)
    requires Inv(s)
    ensures InvAt(s, j)
  {
  }

  /** Sound, silent towards callers, and reviving a row only on a run without active rows. */
  predicate LocalOk(s: State, e: Effect) {
    && JobEffectOk(s, e)
    && ActiveEffectOk(s, e)
    && PipelineEffectOk(s, e)
    && StoreEffectOk(s, e)
    && e.call.None?
    && (WritesJob(e) ==> e.at in s.queue || (e.message.None? && JobAfter(s, e).value.status.Cancelled?))
  }

  lemma LocalEffectIsOk(s: State, e: Effect)
    requires Inv(s) && LocalOk(s, e)
    ensures EffectOk(s, e)
  {
  }

  lemma ReconcileEffect(s: State, j: JobId)
    requires InvAt(s, j)
    ensures LocalOk(s, DoReconcile(s, j))
  {
  }

  lemma CancelJobEffect(s: State, j: JobId)
    requires InvAt(s, j)
    ensures LocalOk(s, DoCancelJob(s, j))
  {
  }

  lemma LoadEffect(s: State, j: JobId)
    requires InvAt(s, j)
    ensures LocalOk(s, DoLoad(s, j))
  {
  }

  lemma TransientEffect(s: State, j: JobId)
    requires InvAt(s, j)
    ensures LocalOk(s, DoTransientBeforeBegin(s, j))
  {
  }

  lemma BeginEffects(s: State, j: JobId, ready: bool)
    requires InvAt(s, j)
    ensures LocalOk(s, DoBegin(s, j, ready))
  {
  }

  lemma MarkFinishedEffect(s: State, j: JobId)
    requires InvAt(s, j)
    ensures LocalOk(s, DoMark(s, j, Wrote, Finished, Returning))
  {
  }

  lemma MarkAppFailureEffect(s: State, j: JobId)
    requires InvAt(s, j)
    ensures LocalOk(s, DoMark(s, j, AppFailure, Failed, Returning))
  {
  }

  lemma MarkUnexpectedEffect(s: State, j: JobId)
    requires InvAt(s, j)
    ensures LocalOk(s, DoMarkUnexpected(s, j))
  {
  }

  lemma FetchEffects(s: State, j: JobId)
    requires InvAt(s, j)
    ensures LocalOk(s, DoFetch(s, j))
    ensures LocalOk(s, DoRqSuccess(s, j))
  {
  }

  lemma RaiseEffects(s: State, j: JobId, delayed: bool)
    requires InvAt(s, j)
    ensures LocalOk(s, DoRqFailure(s, j, delayed))
  {
  }

  lemma DeathEffects(s: State, j: JobId, delayed: bool)
    requires InvAt(s, j)
    ensures LocalOk(s, DoWorkerDies(s, j, delayed))
  {
  }

  lemma CompleteEffect(s: State, actor: Actor, out: Output)
    requires actor.Worker? ==> InvAt(s, actor.job)
    ensures LocalOk(s, DoComplete(s, actor, out))
  {
  }

  lemma PipelineFailureEffects(s: State, actor: Actor)
    requires actor.Worker? ==> InvAt(s, actor.job)
    ensures LocalOk(s, DoPipelineFails(s, actor))
    ensures LocalOk(s, DoInterrupted(s, actor))
  {
  }

  const NO_OUTPUT := Output([], 0, [], Metrics(None, None, None, 0, 0, 0, 0))

  lemma ActorEffects(s: State, actor: Actor, out: Output)
    requires Inv(s)
    ensures LocalOk(s, DoComplete(s, actor, out))
    ensures LocalOk(s, DoPipelineFails(s, actor))
    ensures LocalOk(s, DoInterrupted(s, actor))
  {
    if actor.Worker? { InvariantAt(s, actor.job); }
    CompleteEffect(s, actor, out);
    PipelineFailureEffects(s, actor);
  }

  lemma RunEffects(s: State, run: RunId, user: UserId, horizon: nat, c: CallId, ready: bool)
    ensures LocalOk(s, DoCreateRun(s, run, user, horizon))
    ensures LocalOk(s, DoCancelRun(s, run))
    ensures LocalOk(s, DoDirectBegin(s, c, user, run, ready))
  {
  }

  // ----- effects of enqueue and retry calls ------------------------------------------------------

  lemma AnswerIsOk(s: State, c: CallId, now: Call)
    requires CallsOk(s) && CallOk(s, now) && !now.Inserted? && !now.DispatchFailed?
    requires c in s.calls ==> !s.calls[c].Inserted? && !s.calls[c].DispatchFailed?
    ensures EffectOk(s, Says(c, now))
  {
  }

  lemma NothingIsOk(s: State)
    requires CallsOk(s)
    ensures EffectOk(s, NOTHING)
  {
  }

  lemma EnqueueCheckEffect(s: State, c: CallId, user: UserId, run: RunId, ok: bool)
    requires CallsOk(s)
    ensures EffectOk(s, DoEnqueueCheck(s, c, user, run, ok))
  {
    NothingIsOk(s);
    var e := DoEnqueueCheck(s, c, user, run, ok);
    if e.call.Some? { AnswerIsOk(s, c, e.call.value.now); }
  }

  lemma RetryCheckEffect(s: State, c: CallId, user: UserId, j: JobId, ok: bool)
    requires CallsOk(s)
    ensures EffectOk(s, DoRetryCheck(s, c, user, j, ok))
  {
    NothingIsOk(s);
    var e := DoRetryCheck(s, c, user, j, ok);
    if e.call.Some? { AnswerIsOk(s, c, e.call.value.now); }
  }

  lemma LostRaceEffect(s: State, c: CallId)
    requires CallsOk(s)
    ensures EffectOk(s, DoResolveLostRace(s, c))
  {
    NothingIsOk(s);
    var e := DoResolveLostRace(s, c);
    if e.call.Some? { AnswerIsOk(s, c, e.call.value.now); }
  }

  /** A fresh row of a run without active jobs, announced by the call that inserted it. */
  lemma FreshRowIsOk(s: State, e: Effect)
    requires Inv(s)
    requires e.job.Some? && e.message.None? && e.pipeline.Keep? && e.output.None?
    requires e.at !in s.jobs && e.job.value.status.Queued? && e.job.value.attempts == 0
    requires OwnsRun(s, e.job.value.user, e.job.value.run) && !HasActive(s, e.job.value.run)
    requires e.call.Some? && e.call.value.now == Inserted(e.at)
    requires e.run.Some? ==> SameRunIdentity(s, e) && !e.run.value.row.status.Completed?
    ensures EffectOk(s, e)
  {
    assert e.at !in s.queue;
    assert NobodyElseDispatches(s, e, e.at) by {
      forall c: CallId | c in s.calls ensures !AboutToDispatch(s.calls[c], e.at) {
        assert CallOk(s, s.calls[c]);
      }
    }
  }

  lemma EnqueueInsertEffect(s: State, c: CallId, j: JobId, maxRetries: nat)
    requires Inv(s)
    ensures EffectOk(s, DoEnqueueInsert(s, c, j, maxRetries))
  {
    if c in s.calls && s.calls[c].EnqueueChecked? && j !in s.jobs {
      assert CallOk(s, s.calls[c]);
      if HasActive(s, s.calls[c].run) {
        AnswerIsOk(s, c, LostRace(s.calls[c].user, s.calls[c].run));
      } else {
        FreshRowIsOk(s, DoEnqueueInsert(s, c, j, maxRetries));
      }
    }
  }

  lemma RetryInsertEffect(s: State, c: CallId, j: JobId, maxRetries: nat)
    requires Inv(s)
    ensures EffectOk(s, DoRetryInsert(s, c, j, maxRetries))
  {
    if c in s.calls && s.calls[c].RetryChecked? && j !in s.jobs {
      assert CallOk(s, s.calls[c]);
      if HasActive(s, s.calls[c].run) {
        AnswerIsOk(s, c, Refused(DuplicateActiveJob));
      } else {
        FreshRowIsOk(s, DoRetryInsert(s, c, j, maxRetries));
      }
    }
  }

  lemma DispatchEffect(s: State, c: CallId, delivered: bool)
    requires Inv(s)
    ensures EffectOk(s, DoDispatch(s, c, delivered))
  {
    hide StoreOk, UniqueActive, PipelinesOk;
    if c in s.calls && s.calls[c].Inserted? {
      var j := s.calls[c].job;
      assert CallOk(s, s.calls[c]) && InvAt(s, j) by { InvariantAt(s, j); }
      assert NobodyElseDispatches(s, DoDispatch(s, c, delivered), j);
    }
  }

  lemma EnqueueFailureEffect(s: State, c: CallId)
    requires Inv(s)
    ensures EffectOk(s, DoMarkEnqueueFailed(s, c))
  {
    if c in s.calls && s.calls[c].DispatchFailed? {
      var j := s.calls[c].job;
      assert CallOk(s, s.calls[c]) && InvAt(s, j) by { InvariantAt(s, j); }
      assert NobodyElseDispatches(s, DoMarkEnqueueFailed(s, c), j);
    }
  }

  lemma CallEffects(s: State, a: Action)
    requires Inv(s)
    requires CallStep(a)
    ensures EffectOk(s, EffectOf(s, a))
  {
    match a {
      case EnqueueCheck(c, user, run, ok) => EnqueueCheckEffect(s, c, user, run, ok);
      case EnqueueInsert(c, j, maxRetries) => EnqueueInsertEffect(s, c, j, maxRetries);
      case ResolveLostRace(c) => LostRaceEffect(s, c);
      case RetryCheck(c, user, j, ok) => RetryCheckEffect(s, c, user, j, ok);
      case RetryInsert(c, j, maxRetries) => RetryInsertEffect(s, c, j, maxRetries);
      case Dispatch(c, delivered) => DispatchEffect(s, c, delivered);
      case MarkEnqueueFailed(c) => EnqueueFailureEffect(s, c);
    }
  }

  predicate CallStep(a: Action) {
    a.EnqueueCheck? || a.EnqueueInsert? || a.ResolveLostRace? || a.RetryCheck? || a.RetryInsert?
    || a.Dispatch? || a.MarkEnqueueFailed?
  }

  predicate QueueStep(a: Action) {
    a.Load? || a.TransientBeforeBegin? || a.MarkFinished? || a.MarkAppFailure? || a.MarkUnexpected?
    || a.Fetch? || a.RqSuccess? || a.RqFailure? || a.WorkerDies?
  }

  lemma QueueSteps(s: State, a: Action)
    requires Inv(s) && QueueStep(a)
    ensures LocalOk(s, EffectOf(s, a))
  {
    hide Inv, InvAt, LocalOk, DoLoad, DoTransientBeforeBegin, DoMark, DoMarkUnexpected;
    hide DoFetch, DoRqSuccess, DoRqFailure, DoWorkerDies;
    match a {
      case Load(j) => InvariantAt(s, j); LoadEffect(s, j);
      case TransientBeforeBegin(j) => InvariantAt(s, j); TransientEffect(s, j);
      case MarkFinished(j) => InvariantAt(s, j); MarkFinishedEffect(s, j);
      case MarkAppFailure(j) => InvariantAt(s, j); MarkAppFailureEffect(s, j);
      case MarkUnexpected(j) => InvariantAt(s, j); MarkUnexpectedEffect(s, j);
      case Fetch(j) => InvariantAt(s, j); FetchEffects(s, j);
      case RqSuccess(j) => InvariantAt(s, j); FetchEffects(s, j);
      case RqFailure(j, delayed) => InvariantAt(s, j); RaiseEffects(s, j, delayed);
      case WorkerDies(j, delayed) => InvariantAt(s, j); DeathEffects(s, j, delayed);
      case _ => assert false;
    }
  }

  lemma LocalSteps(s: State, a: Action)
    requires Inv(s) && !CallStep(a)
    ensures LocalOk(s, EffectOf(s, a))
  {
    hide Inv, InvAt, LocalOk, DoCreateRun, DoCancelRun, DoDirectBegin, DoReconcile, DoCancelJob;
    hide DoBegin, DoComplete, DoPipelineFails, DoInterrupted;
    if QueueStep(a) {
      QueueSteps(s, a);
      return;
    }
    match a {
      case CreateRun(run, user, horizon) => RunEffects(s, run, user, horizon, 0, false);
      case CancelRun(run) => RunEffects(s, run, 0, 0, 0, false);
      case DirectBegin(c, user, run, ready) => RunEffects(s, run, user, 0, c, ready);
      case Reconcile(j) => InvariantAt(s, j); ReconcileEffect(s, j);
      case CancelJob(j) => InvariantAt(s, j); CancelJobEffect(s, j);
      case Begin(j, ready) => InvariantAt(s, j); BeginEffects(s, j, ready);
      case Complete(actor, out) => ActorEffects(s, actor, out);
      case PipelineFails(actor) => ActorEffects(s, actor, NO_OUTPUT);
      case Interrupted(actor) => ActorEffects(s, actor, NO_OUTPUT);
      case _ => assert false;
    }
  }

  /** Every step, whoever takes it, writes something sound. */
  lemma StepIsOk(s: State, a: Action)
    requires Inv(s)
    ensures EffectOk(s, EffectOf(s, a))
  {
    if CallStep(a) {
      CallEffects(s, a);
    } else {
      LocalSteps(s, a);
      LocalEffectIsOk(s, EffectOf(s, a));
    }
  }

  // ----- committing a sound effect keeps the invariant -----------------------------------------

  lemma CommitKeepsJobs(s: State, e: Effect)
    requires JobsOk(s) && EffectOk(s, e)
    ensures JobsOk(Commit(s, e))
  {
  }

  lemma CommitKeepsUniqueActive(s: State, e: Effect)
    requires UniqueActive(s) && SameSubject(s, e) && ActiveEffectOk(s, e)
    ensures UniqueActive(Commit(s, e))
  {
  }

  lemma CommitKeepsOneCall(s: State, e: Effect, c: CallId)
    requires JobsOk(s) && CallsOk(s) && EffectOk(s, e)
    requires c in Commit(s, e).calls
    ensures CallOk(Commit(s, e), Commit(s, e).calls[c])
  {
    if !IsOwnCall(e, c) {
      assert CallOk(s, s.calls[c]);
    }
  }

  lemma CommitKeepsDispatchersApart(s: State, e: Effect, c: CallId, d: CallId, j: JobId)
    requires CallsOk(s) && CallEffectOk(s, e)
    requires c in Commit(s, e).calls && d in Commit(s, e).calls
    requires AboutToDispatch(Commit(s, e).calls[c], j) && AboutToDispatch(Commit(s, e).calls[d], j)
    ensures c == d
  {
  }

  lemma CommitKeepsCalls(s: State, e: Effect)
    requires JobsOk(s) && CallsOk(s) && EffectOk(s, e)
    ensures CallsOk(Commit(s, e))
  {
    var t := Commit(s, e);
    forall c: CallId | c in t.calls ensures CallOk(t, t.calls[c]) {
      CommitKeepsOneCall(s, e, c);
    }
    forall c: CallId, d: CallId, j: JobId
      | c in t.calls && d in t.calls && AboutToDispatch(t.calls[c], j) && AboutToDispatch(t.calls[d], j)
      ensures c == d
    {
      CommitKeepsDispatchersApart(s, e, c, d, j);
    }
  }

  lemma CommitKeepsPipelines(s: State, e: Effect)
    requires PipelinesOk(s) && PipelineEffectOk(s, e)
    ensures PipelinesOk(Commit(s, e))
  {
  }

  /** The stored rows of one run, across a commit that may replace some run's output. */
  lemma CommitKeepsRows(s: State, e: Effect, r: RunId)
    requires StoreOk(s) && StoreEffectOk(s, e)
    ensures RowsOf(Commit(s, e).predictions, r)
         == if e.output.Some? && e.output.value.run == r then e.output.value.out.predictions
            else RowsOf(s.predictions, r)
    ensures RowsOf(Commit(s, e).metrics, r)
         == if e.output.Some? && e.output.value.run == r then [e.output.value.out.metrics]
            else RowsOf(s.metrics, r)
  {
    if e.output.Some? {
      var OutputWrite(user, run, out) := e.output.value;
      ReplacementIsExact(s.predictions, user, run, out.predictions, r);
      ReplacementIsExact(s.metrics, user, run, [out.metrics], r);
    }
  }

  lemma {:induction false} NoRows<T>(table: seq<Stored<T>>, run: RunId)
    requires forall row :: row in table ==> row.run != run
    ensures RowsOf(table, run) == []
  {
    if table != [] {
      assert table[0] in table;
      NoRows(table[1..], run);
    }
  }

  lemma CommitKeepsRunStored(s: State, e: Effect, r: RunId)
    requires StoreOk(s) && StoreEffectOk(s, e) && SameRunIdentity(s, e)
    requires r in Commit(s, e).runs
    ensures RunStored(Commit(s, e), r)
  {
    CommitKeepsRows(s, e, r);
    if r in s.runs {
      assert RunStored(s, r);
    } else {
      NoRows(s.predictions, r);
      NoRows(s.metrics, r);
    }
  }

  lemma ReplacementOwned<T>(s: State, table: seq<Stored<T>>, user: UserId, run: RunId, values: seq<T>)
    requires RowsOwned(s, table) && OwnsRun(s, user, run)
    ensures RowsOwned(s, ReplaceRows(table, user, run, values))
  {
    ReplacementOwners(table, user, run, values);
  }

  lemma OwnersStay<T>(s: State, t: State, rows: seq<Stored<T>>)
    requires RowsOwned(s, rows)
    requires forall r: RunId :: r in s.runs ==> r in t.runs && t.runs[r].user == s.runs[r].user
    ensures RowsOwned(t, rows)
  {
  }

  lemma CommitKeepsOwners(s: State, e: Effect)
    requires RowsOwned(s, s.predictions) && RowsOwned(s, s.metrics)
    requires e.output.Some? ==> OwnsRun(s, e.output.value.user, e.output.value.run)
    requires SameRunIdentity(s, e)
    ensures RowsOwned(Commit(s, e), Commit(s, e).predictions) && RowsOwned(Commit(s, e), Commit(s, e).metrics)
  {
    if e.output.Some? {
      var OutputWrite(user, run, out) := e.output.value;
      ReplacementOwned(s, s.predictions, user, run, out.predictions);
      ReplacementOwned(s, s.metrics, user, run, [out.metrics]);
    }
    OwnersStay(s, Commit(s, e), Commit(s, e).predictions);
    OwnersStay(s, Commit(s, e), Commit(s, e).metrics);
  }

  lemma CommitKeepsStore(s: State, e: Effect)
    requires StoreOk(s) && StoreEffectOk(s, e) && SameRunIdentity(s, e)
    ensures StoreOk(Commit(s, e))
  {
    forall r: RunId | r in Commit(s, e).runs ensures RunStored(Commit(s, e), r) {
      CommitKeepsRunStored(s, e, r);
    }
    CommitKeepsOwners(s, e);
  }

  // ----- the invariant theorem -----------------------------------------------------------------

  lemma InvariantStep(s: State, a: Action)
    requires Inv(s)
    ensures Inv(Next(s, a))
  {
    var e := EffectOf(s, a);
    StepIsOk(s, a);
    CommitKeepsJobs(s, e);
    CommitKeepsUniqueActive(s, e);
    CommitKeepsCalls(s, e);
    CommitKeepsPipelines(s, e);
    CommitKeepsStore(s, e);
  }

  /** Every interleaving of every call, worker and queue event keeps the invariant. */
  lemma {:induction false} InvariantAlongTraces(s: State, actions: seq<Action>)
    requires Inv(s)
    ensures Inv(Trace(s, actions))
    decreases |actions|
  {
    if actions != [] {
      InvariantStep(s, actions[0]);
      InvariantAlongTraces(Next(s, actions[0]), actions[1..]);
    }
  }
}
