/** What the protocol guarantees its users, and the interleavings in which it does not. */
module JobSafety {
  import opened Wrappers
  import opened JobRules
  import opened ForecastTables
  import opened JobProtocol
  import opened JobInvariants

  lemma ReachableInv(s: State)
    requires Reachable(s)
    ensures Inv(s)
  {
    var states, actions :| IsBehaviour(states, actions) && states[|actions|] == s;
    for i := 0 to |actions|
      invariant Inv(states[i])
    {
      InvariantStep(states[i], actions[i]);
    }
  }

  // ----- the declared transition table ------------------------------------------------------

  /** A failed dispatch reports on a job that was cancelled after its insert committed. */
  predicate OverwritesCancellation(s: State, a: Action, j: JobId) {
    && a.MarkEnqueueFailed?
    && a.call in s.calls
    && s.calls[a.call] == DispatchFailed(j)
    && j in s.jobs && s.jobs[j].status == Cancelled
  }

  /**
    A message runs again because its worker died after recording the outcome: the row was finished
    or failed, and nothing stops it from being marked started.
    */
  predicate RestartsEndedJob(s: State, a: Action, j: JobId) {
    && a == Load(j)
    && PcIs(s, j, Fetched)
    && j in s.jobs && (s.jobs[j].status == Finished || s.jobs[j].status == Failed)
    && !HasActive(s, s.jobs[j].run)
  }

  /** Status of a row before and after an effect, against the table. */
  predicate FollowsTable(s: State, e: Effect, j: JobId)
    requires j in s.jobs
  {
    e.job.Some? && e.at == j ==> LegalChange(s.jobs[j].status, e.job.value.status)
  }

  lemma CallStepsFollowTable(s: State, a: Action, j: JobId)
    requires CallsOk(s) && CallStep(a) && j in s.jobs
    ensures FollowsTable(s, EffectOf(s, a), j) <==> !OverwritesCancellation(s, a, j)
  {
    if a.MarkEnqueueFailed? && a.call in s.calls {
      assert CallOk(s, s.calls[a.call]);
    }
  }

  lemma ApiAndQueueFollowTable(s: State, j: JobId, a: Action)
    requires InvAt(s, j) && j in s.jobs && !CallStep(a)
    ensures FollowsTable(s, EffectOf(s, a), j) <==> !RestartsEndedJob(s, a, j)
  {
  }

  lemma StatusStepFollowsTable(s: State, a: Action, j: JobId)
    requires CallsOk(s) && InvAt(s, j) && j in s.jobs
    ensures j in Next(s, a).jobs
    ensures LegalChange(s.jobs[j].status, Next(s, a).jobs[j].status) <==>
      !OverwritesCancellation(s, a, j) && !RestartsEndedJob(s, a, j)
  {
    if CallStep(a) {
      CallStepsFollowTable(s, a, j);
    } else {
      ApiAndQueueFollowTable(s, j, a);
    }
  }

  /**
    Although no code consults the table, every status change of every step obeys it, with exactly
    two exceptions: marking a failed enqueue on a job that was cancelled in the meantime, and
    restarting a finished or failed job whose worker died before it could return to RQ.
    */
  lemma StatusChangesFollowTable(s: State, a: Action, j: JobId)
    requires Reachable(s) && j in s.jobs
    ensures j in Next(s, a).jobs
    ensures LegalChange(s.jobs[j].status, Next(s, a).jobs[j].status) <==>
      !OverwritesCancellation(s, a, j) && !RestartsEndedJob(s, a, j)
  {
    ReachableInv(s);
    InvariantAt(s, j);
    StatusStepFollowsTable(s, a, j);
  }

  /** The nine declared changes; anything may stay as it is. */
  lemma TableIsDeclared(current: JobStatus, next: JobStatus)
    ensures LegalChange(current, next) <==>
      || current == next
      || (current == Queued && (next == Started || next == Failed || next == Cancelled))
      || (current == Started && (next == Finished || next == Failed || next == Retrying))
      || (current == Retrying && (next == Started || next == Failed || next == Cancelled))
  {
  }

  /** Eight of the declared changes, and the three of the exceptions. */
  predicate CanOccur(current: JobStatus, next: JobStatus) {
    match current
    case Queued => next == Started || next == Failed || next == Cancelled
    case Started => next == Finished || next == Failed || next == Retrying
    case Retrying => next == Started || next == Failed
    case Finished => next == Started
    case Failed => next == Started
    case Cancelled => next == Failed
  }

  /** No other change ever happens; in particular, a retrying job is never cancelled. */
  lemma StatusChangesThatOccur(s: State, a: Action, j: JobId)
    requires Reachable(s) && j in s.jobs
    ensures j in Next(s, a).jobs
    ensures s.jobs[j].status != Next(s, a).jobs[j].status ==> CanOccur(s.jobs[j].status, Next(s, a).jobs[j].status)
  {
    hide Next, Inv, InvAt, CanOccur, OverwritesCancellation, RestartsEndedJob;
    ReachableInv(s);
    InvariantAt(s, j);
    StatusChangesFollowTable(s, a, j);
    if LegalChange(s.jobs[j].status, Next(s, a).jobs[j].status) {
      if s.jobs[j].status == Retrying { RetryingIsNotCancelled(s, a, j); }
      if s.jobs[j].status != Next(s, a).jobs[j].status {
        DeclaredCanOccur(s.jobs[j].status, Next(s, a).jobs[j].status);
      }
    } else {
      ExceptionalChange(s, a, j);
    }
  }

  lemma DeclaredCanOccur(current: JobStatus, next: JobStatus)
    requires LegalChange(current, next) && current != next && !(current == Retrying && next == Cancelled)
    ensures CanOccur(current, next)
  {
    TableIsDeclared(current, next);
  }

  lemma RetryingIsNotCancelled(s: State, a: Action, j: JobId)
    requires InvAt(s, j) && j in s.jobs && j in Next(s, a).jobs && s.jobs[j].status == Retrying
    ensures Next(s, a).jobs[j].status != Cancelled
  {
    hide InvAt, Next;
    if Next(s, a).jobs[j].status == Cancelled {
      WhatCancels(s, a, j);
      RetryingSurvives(s, a, j);
    }
  }

  /** Nothing but a cancel or a reconcile of that very job makes it cancelled. */
  lemma WhatCancels(s: State, a: Action, j: JobId)
    requires j in s.jobs && s.jobs[j].status != Cancelled
    requires j in Next(s, a).jobs && Next(s, a).jobs[j].status == Cancelled
    ensures a == CancelJob(j) || a == Reconcile(j)
  {
    hide EffectOf;
    if CallStep(a) { CallsWriteNoCancel(s, a); } else { OthersWriteNoCancel(s, a); }
  }

  predicate WritesCancelled(e: Effect) {
    e.job.Some? && e.job.value.status == Cancelled
  }

  lemma CallsWriteNoCancel(s: State, a: Action)
    requires CallStep(a)
    ensures !WritesCancelled(EffectOf(s, a))
  {
  }

  lemma OthersWriteNoCancel(s: State, a: Action)
    requires !CallStep(a) && WritesCancelled(EffectOf(s, a))
    ensures a == CancelJob(EffectOf(s, a).at) || a == Reconcile(EffectOf(s, a).at)
  {
  }

  lemma RetryingSurvives(s: State, a: Action, j: JobId)
    requires InvAt(s, j) && j in s.jobs && s.jobs[j].status == Retrying && (a == CancelJob(j) || a == Reconcile(j))
    ensures j in Next(s, a).jobs && Next(s, a).jobs[j].status != Cancelled
  {
  }

  lemma ExceptionalChange(s: State, a: Action, j: JobId)
    requires j in s.jobs && j in Next(s, a).jobs && (OverwritesCancellation(s, a, j) || RestartsEndedJob(s, a, j))
    ensures s.jobs[j].status == Next(s, a).jobs[j].status
         || CanOccur(s.jobs[j].status, Next(s, a).jobs[j].status)
  {
  }

  // ----- attempts and retries ------------------------------------------------------------------

  /** This step loads job `j` and marks it started. */
  predicate StartsJob(s: State, a: Action, j: JobId) {
    a == Load(j) && DoLoad(s, j).job.Some?
  }

  ghost function Starts(s: State, actions: seq<Action>, j: JobId): nat
    decreases |actions|
  {
    if actions == [] then 0
    else (if StartsJob(s, actions[0], j) then 1 else 0) + Starts(Next(s, actions[0]), actions[1..], j)
  }

  function AttemptsOf(s: State, j: JobId): nat {
    if j in s.jobs then s.jobs[j].attempts else 0
  }

  lemma CallStepAttempts(s: State, a: Action, j: JobId)
    requires CallStep(a)
    ensures AttemptsOf(Next(s, a), j) == AttemptsOf(s, j)
  {
  }

  lemma OtherStepAttempts(s: State, a: Action, j: JobId)
    requires !CallStep(a)
    ensures AttemptsOf(Next(s, a), j) == AttemptsOf(s, j) + (if StartsJob(s, a, j) then 1 else 0)
  {
  }

  /** `attempts` counts worker starts, and never exceeds the executions RQ was asked to grant. */
  lemma {:induction false} AttemptsCountStarts(s: State, actions: seq<Action>, j: JobId)
    requires Inv(s)
    ensures AttemptsOf(Trace(s, actions), j) == AttemptsOf(s, j) + Starts(s, actions, j)
    ensures j in Trace(s, actions).jobs ==>
      AttemptsOf(Trace(s, actions), j) <= ExecutionsGranted(Trace(s, actions).jobs[j].maxRetries)
    decreases |actions|
  {
    if actions == [] {
      InvariantAt(s, j);
    } else {
      var a := actions[0];
      InvariantStep(s, a);
      AttemptsCountStarts(Next(s, a), actions[1..], j);
      if CallStep(a) { CallStepAttempts(s, a, j); } else { OtherStepAttempts(s, a, j); }
    }
  }

  /** An execution ended without marking the start, and RQ grants no further execution. */
  predicate LastChanceAfterMissedStart(m: Message, maxRetries: nat) {
    m.missedStarts > 0 && m.retriesLeft == 0 && maxRetries > 0
  }

  lemma RetryVerdict(job: Job, m: Message)
    requires JobOk(job, Some(m)) && m.pc == Transient
    ensures (AfterTransient(job) == Retrying <==> m.retriesLeft > 0)
       <==> !LastChanceAfterMissedStart(m, job.maxRetries)
  {
  }

  /**
    A retryable error leaves the job "retrying" exactly when RQ has a retry left, unless an earlier
    execution ended before it could mark the start and this was the last one granted.
    */
  lemma RetryingMatchesQueue(s: State, j: JobId)
    requires InvAt(s, j) && PcIs(s, j, Transient)
    ensures j in s.jobs && j in Next(s, MarkUnexpected(j)).jobs
    ensures (Next(s, MarkUnexpected(j)).jobs[j].status == Retrying <==> s.queue[j].retriesLeft > 0)
       <==> !LastChanceAfterMissedStart(s.queue[j], s.jobs[j].maxRetries)
  {
    RetryVerdict(s.jobs[j], s.queue[j]);
  }

  // ----- every dispatched message comes to rest --------------------------------------------------

  function Rank(pc: WorkerPc): nat {
    match pc
    case Idle => 0
    case Fetched => 7
    case Loaded => 6
    case Computing => 5
    case Wrote => 4
    case AppFailure => 3
    case Transient => 3
    case Returning => 1
    case Raising => 1
  }

  /** Eight steps for every execution still granted, plus what is left of the one under way. */
  function Measure(m: Message): nat {
    8 * (m.retriesLeft + (if Waiting(m) then 1 else 0)) + Rank(m.pc)
  }

  /** This step moves the message of `j`: a worker or RQ acts on it. */
  ghost predicate MovesMessage(s: State, a: Action, j: JobId) {
    j in s.queue && EffectOf(s, a).message.Some? && EffectOf(s, a).at == j && !a.CancelJob?
  }

  ghost function Moves(s: State, actions: seq<Action>, j: JobId): nat
    decreases |actions|
  {
    if actions == [] then 0
    else (if MovesMessage(s, actions[0], j) then 1 else 0) + Moves(Next(s, actions[0]), actions[1..], j)
  }

  lemma CallStepsMoveNothing(s: State, a: Action, j: JobId)
    requires CallsOk(s) && CallStep(a) && j in s.queue
    ensures !MovesMessage(s, a, j) && j in Next(s, a).queue && Next(s, a).queue[j] == s.queue[j]
  {
    if a.Dispatch? && a.call in s.calls {
      assert CallOk(s, s.calls[a.call]);
    } else {
      assert EffectOf(s, a).message.None?;
    }
  }

  lemma OutcomesDecrease(s: State, a: Action, j: JobId)
    requires (a.Complete? || a.PipelineFails? || a.Interrupted?) && j in s.queue
    requires a.actor.Worker? ==> InvAt(s, a.actor.job)
    ensures j in Next(s, a).queue
    ensures Measure(Next(s, a).queue[j]) + (if MovesMessage(s, a, j) then 1 else 0) <= Measure(s.queue[j])
  {
    hide JobOk, ValidOutput;
  }

  /** The message a worker or RQ step writes is one of the same job, further on than before. */
  predicate Decreases(s: State, e: Effect) {
    e.message.Some? ==> e.at in s.queue && Measure(e.message.value) < Measure(s.queue[e.at])
  }

  lemma WorkerMovesDecrease(s: State, j: JobId)
    ensures Decreases(s, DoLoad(s, j)) && Decreases(s, DoTransientBeforeBegin(s, j))
    ensures Decreases(s, DoMark(s, j, Wrote, Finished, Returning))
    ensures Decreases(s, DoMark(s, j, AppFailure, Failed, Returning))
    ensures Decreases(s, DoMarkUnexpected(s, j))
  {
  }

  lemma RqMovesDecrease(s: State, j: JobId, delayed: bool)
    ensures Decreases(s, DoFetch(s, j)) && Decreases(s, DoRqSuccess(s, j))
    ensures Decreases(s, DoRqFailure(s, j, delayed)) && Decreases(s, DoWorkerDies(s, j, delayed))
  {
  }

  lemma QueueStepsDecrease(s: State, a: Action)
    requires QueueStep(a)
    ensures Decreases(s, EffectOf(s, a))
  {
    hide Decreases, DoLoad, DoTransientBeforeBegin, DoMark, DoMarkUnexpected;
    hide DoFetch, DoRqSuccess, DoRqFailure, DoWorkerDies;
    WorkerMovesDecrease(s, a.job);
    RqMovesDecrease(s, a.job, if a.RqFailure? || a.WorkerDies? then a.delayed else false);
  }

  lemma QueueMovesDecrease(s: State, a: Action, j: JobId)
    requires QueueStep(a) && j in s.queue
    ensures j in Next(s, a).queue
    ensures Measure(Next(s, a).queue[j]) + (if MovesMessage(s, a, j) then 1 else 0) <= Measure(s.queue[j])
  {
    hide Measure, EffectOf;
    QueueStepsDecrease(s, a);
  }

  lemma RunMovesDecrease(s: State, a: Action, j: JobId)
    requires !CallStep(a) && !QueueStep(a) && j in s.queue && !(a.Complete? || a.PipelineFails? || a.Interrupted?)
    requires InvAt(s, j)
    ensures j in Next(s, a).queue
    ensures Measure(Next(s, a).queue[j]) + (if MovesMessage(s, a, j) then 1 else 0) <= Measure(s.queue[j])
  {
    hide JobOk;
  }

  lemma MovesDecrease(s: State, a: Action, j: JobId)
    requires InvAt(s, j) && !CallStep(a) && j in s.queue
    requires (a.Complete? || a.PipelineFails? || a.Interrupted?) && a.actor.Worker? ==> InvAt(s, a.actor.job)
    ensures j in Next(s, a).queue
    ensures Measure(Next(s, a).queue[j]) + (if MovesMessage(s, a, j) then 1 else 0) <= Measure(s.queue[j])
  {
    if a.Complete? || a.PipelineFails? || a.Interrupted? {
      OutcomesDecrease(s, a, j);
    } else if QueueStep(a) {
      QueueMovesDecrease(s, a, j);
    } else {
      RunMovesDecrease(s, a, j);
    }
  }

  /** However the rest of the system behaves, a message is moved at most Measure times. */
  lemma {:induction false} MessageComesToRest(s: State, actions: seq<Action>, j: JobId)
    requires Inv(s) && j in s.queue
    ensures j in Trace(s, actions).queue
    ensures Moves(s, actions, j) + Measure(Trace(s, actions).queue[j]) <= Measure(s.queue[j])
    decreases |actions|
  {
    if actions != [] {
      var a := actions[0];
      InvariantAt(s, j);
      if CallStep(a) {
        CallStepsMoveNothing(s, a, j);
      } else {
        if (a.Complete? || a.PipelineFails? || a.Interrupted?) && a.actor.Worker? { InvariantAt(s, a.actor.job); }
        MovesDecrease(s, a, j);
      }
      InvariantStep(s, a);
      MessageComesToRest(Next(s, a), actions[1..], j);
    }
  }

  lemma DispatchStartsMeasure(s: State, c: CallId, more: seq<Action>)
    requires Inv(s) && c in s.calls && s.calls[c].Inserted?
    ensures s.calls[c].job in s.jobs
    ensures Moves(Next(s, Dispatch(c, true)), more, s.calls[c].job)
         <= 8 * ExecutionsGranted(s.jobs[s.calls[c].job].maxRetries)
  {
    var j := s.calls[c].job;
    assert CallOk(s, s.calls[c]);
    assert Next(s, Dispatch(c, true)).queue == s.queue[j := NewMessage(s.jobs[j])];
    InvariantStep(s, Dispatch(c, true));
    MessageComesToRest(Next(s, Dispatch(c, true)), more, j);
  }

  /** From dispatch on, at most eight moves for each granted execution. */
  lemma DispatchedMessageIsBounded(s: State, c: CallId, more: seq<Action>)
    requires Reachable(s) && c in s.calls && s.calls[c].Inserted?
    ensures s.calls[c].job in s.jobs
    ensures Moves(Next(s, Dispatch(c, true)), more, s.calls[c].job)
         <= 8 * ExecutionsGranted(s.jobs[s.calls[c].job].maxRetries)
  {
    ReachableInv(s);
    DispatchStartsMeasure(s, c, more);
  }

  // ----- racing enqueues -----------------------------------------------------------------------

  /** Within a run's owner, the owner-filtered query sees whatever the unique index sees. */
  lemma ActiveJobIsFound(s: State, user: UserId, run: RunId)
    requires Inv(s) && OwnsRun(s, user, run)
    ensures ActiveJobOf(s, user, run).Some? <==> HasActive(s, run)
    ensures forall j :: j in s.jobs && ActiveFor(s, j, run) ==> ActiveJobOf(s, user, run) == Some(j)
  {
    if j: JobId :| j in s.jobs && ActiveFor(s, j, run) {
      assert s.jobs[j].user == user;
    }
  }

  /** Only its own resolution ends a lost race. */
  lemma {:induction false} LostRaceWaits(s: State, actions: seq<Action>, c: CallId)
    requires c in s.calls && s.calls[c].LostRace? && ResolveLostRace(c) !in actions
    ensures c in Trace(s, actions).calls && Trace(s, actions).calls[c] == s.calls[c]
    decreases |actions|
  {
    if actions != [] {
      assert actions[0] in actions && forall a :: a in actions[1..] ==> a in actions;
      LostRaceStays(s, actions[0], c);
      LostRaceWaits(Next(s, actions[0]), actions[1..], c);
    }
  }

  lemma OtherCallsStay(s: State, a: Action, c: CallId)
    requires CallStep(a) && c in s.calls && s.calls[c].LostRace? && a != ResolveLostRace(c)
    ensures !IsOwnCall(EffectOf(s, a), c)
  {
  }

  lemma OtherStepsAreSilent(s: State, a: Action)
    requires !CallStep(a)
    ensures EffectOf(s, a).call.None?
  {
  }

  lemma LostRaceStays(s: State, a: Action, c: CallId)
    requires c in s.calls && s.calls[c].LostRace? && a != ResolveLostRace(c)
    ensures c in Next(s, a).calls && Next(s, a).calls[c] == s.calls[c]
  {
    hide EffectOf;
    if CallStep(a) { OtherCallsStay(s, a, c); } else { OtherStepsAreSilent(s, a); }
  }

  lemma LostRaceAnswer(s: State, c: CallId)
    requires Inv(s) && c in s.calls && s.calls[c].LostRace?
    ensures var t := Next(s, ResolveLostRace(c));
      && t == s.(calls := t.calls) && c in t.calls
      && (HasActive(s, s.calls[c].run) ==> t.calls[c].Answered? && ActiveFor(s, t.calls[c].job, s.calls[c].run))
      && (!HasActive(s, s.calls[c].run) ==> t.calls[c] == Refused(DuplicateActiveJob))
  {
    assert CallOk(s, s.calls[c]);
    ActiveJobIsFound(s, s.calls[c].user, s.calls[c].run);
  }

  /**
    An enqueue whose insert meets an active job writes nothing but its own progress. Whatever
    happens before it looks again, it then answers with the run's active job if there is one,
    refuses with the duplicate error if there is none, and still writes nothing else.
    */
  lemma LosingEnqueue(s: State, c: CallId, j: JobId, maxRetries: nat, meanwhile: seq<Action>)
    requires Inv(s) && c in s.calls && s.calls[c].EnqueueChecked? && j !in s.jobs
    requires HasActive(s, s.calls[c].run) && ResolveLostRace(c) !in meanwhile
    ensures var run, lost := s.calls[c].run, Next(s, EnqueueInsert(c, j, maxRetries));
      var looked := Trace(lost, meanwhile);
      var done := Next(looked, ResolveLostRace(c));
      && lost == s.(calls := lost.calls)
      && done == looked.(calls := done.calls)
      && c in done.calls
      && (HasActive(looked, run) ==> done.calls[c].Answered? && ActiveFor(looked, done.calls[c].job, run))
      && (!HasActive(looked, run) ==> done.calls[c] == Refused(DuplicateActiveJob))
  {
    var lost := Next(s, EnqueueInsert(c, j, maxRetries));
    assert lost.calls[c] == LostRace(s.calls[c].user, s.calls[c].run);
    InvariantStep(s, EnqueueInsert(c, j, maxRetries));
    InvariantAlongTraces(lost, meanwhile);
    LostRaceWaits(lost, meanwhile, c);
    LostRaceAnswer(Trace(lost, meanwhile), c);
  }

  /** In every reachable state no run has two active jobs. */
  lemma OneActiveJobPerRun(s: State, i: JobId, j: JobId)
    requires Reachable(s) && i in s.jobs && j in s.jobs
    requires Active(s.jobs[i].status) && Active(s.jobs[j].status) && s.jobs[i].run == s.jobs[j].run
    ensures i == j
  {
    ReachableInv(s);
  }

  /** Load never meets a missing row or another payload, and "queued" never meets RQ "finished". */
  lemma DispatchedPayloadMatches(s: State, j: JobId)
    requires Reachable(s) && j in s.queue
    ensures j in s.jobs && s.jobs[j].user == s.queue[j].user && s.jobs[j].run == s.queue[j].run
    ensures Active(s.jobs[j].status) ==> s.queue[j].rq != RqFinished
  {
    ReachableInv(s);
    InvariantAt(s, j);
  }

  // ----- stored results --------------------------------------------------------------------------

  /** The output of the latest successful final write of `run`, read off the trace itself. */
  ghost function LatestOutput(s: State, actions: seq<Action>, run: RunId, before: Option<Output>): Option<Output>
    decreases |actions|
  {
    if actions == [] then before
    else
      var e := EffectOf(s, actions[0]);
      var now := if e.output.Some? && e.output.value.run == run then Some(e.output.value.out) else before;
      LatestOutput(Next(s, actions[0]), actions[1..], run, now)
  }

  lemma {:induction false} LastIsLatest(s: State, actions: seq<Action>, run: RunId)
    ensures Lookup(Trace(s, actions).last, run) == LatestOutput(s, actions, run, Lookup(s.last, run))
    decreases |actions|
  {
    if actions != [] {
      LastIsLatest(Next(s, actions[0]), actions[1..], run);
    }
  }

  /**
    Through failures, rollbacks, reprocessing and cancels, a run stores exactly the rows and the
    one metrics row of its latest successful write, or nothing. A completed run always has one.
    */
  lemma StoredResultsAreLatestOutput(actions: seq<Action>, run: RunId)
    requires run in Trace(INIT, actions).runs
    ensures var s := Trace(INIT, actions);
      match LatestOutput(INIT, actions, run, None)
      case None =>
        RowsOf(s.predictions, run) == [] && RowsOf(s.metrics, run) == [] && s.runs[run].status != Completed
      case Some(out) =>
        && RowsOf(s.predictions, run) == out.predictions
        && RowsOf(s.metrics, run) == [out.metrics]
        && |RowsOf(s.predictions, run)| == s.runs[run].horizon * |out.products|
        && UniqueKeys(RowsOf(s.predictions, run))
  {
    var s := Trace(INIT, actions);
    InvariantAlongTraces(INIT, actions);
    LastIsLatest(INIT, actions, run);
    assert RunStored(s, run);
    if run in s.last { ValidOutputIsComplete(s.last[run], s.runs[run].horizon); }
  }
}
