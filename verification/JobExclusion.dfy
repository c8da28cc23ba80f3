/**
  Two promises: one pipeline per run, and a run that ever finished a job is completed. Which inserts
  break them, and that nothing else does.
  */
module JobExclusion {
  import opened Wrappers
  import opened JobRules
  import opened ForecastTables
  import opened JobProtocol
  import opened JobInvariants
  import opened JobSafety

  predicate InFlight(s: State, run: RunId) {
    exists a :: a in s.pipelines && s.pipelines[a] == run
  }

  /** Some job of the run is finished, or was before a late retry started it again. */
  predicate HasFinished(s: State, run: RunId) {
    exists j :: j in s.queue && s.queue[j].finishedOnce && s.queue[j].run == run
  }

  predicate HasWrote(s: State, run: RunId) {
    exists j :: j in s.queue && s.queue[j].pc == Wrote && s.queue[j].run == run
  }

  predicate StatusIs(s: State, run: RunId, status: RunStatus) {
    run in s.runs && s.runs[run].status == status
  }

  ghost predicate OnePipelinePerRun(s: State) {
    forall a, b :: a in s.pipelines && b in s.pipelines && s.pipelines[a] == s.pipelines[b] ==> a == b
  }

  ghost predicate FinishedRunsCompleted(s: State) {
    forall j :: j in s.queue && s.queue[j].finishedOnce ==> StatusIs(s, s.queue[j].run, Completed)
  }

  /** What callers may rely on. */
  ghost predicate Promised(s: State) {
    OnePipelinePerRun(s) && FinishedRunsCompleted(s)
  }

  ghost predicate PipelinesHoldRuns(s: State) {
    forall a :: a in s.pipelines ==> RunTaken(s, s.pipelines[a])
  }

  ghost predicate WrittenRunsCompleted(s: State) {
    forall j :: j in s.queue && s.queue[j].pc == Wrote ==> StatusIs(s, s.queue[j].run, Completed)
  }

  ghost predicate FinishedRunsSettled(s: State) {
    forall j :: j in s.queue && s.queue[j].finishedOnce ==> Settled(s, s.queue[j].run)
  }

  /** The promises, and what it takes to keep them from step to step. */
  ghost predicate Exclusive(s: State) {
    OnePipelinePerRun(s) && PipelinesHoldRuns(s) && WrittenRunsCompleted(s) && FinishedRunsSettled(s)
  }

  /** A run in flight can only be running, or cancelled meanwhile. */
  predicate RunTaken(s: State, run: RunId) {
    StatusIs(s, run, Running) || StatusIs(s, run, RunCancelled)
  }

  /** Completed, with no job left that could be cancelled and take the run along. */
  predicate Settled(s: State, run: RunId) {
    StatusIs(s, run, Completed) && forall j :: j in s.jobs && s.jobs[j].run == run ==> s.jobs[j].status != Queued
  }

  // ----- when an insert does harm --------------------------------------------------------------

  /** The insert that `a` performs, if it goes through: its call and the run's fate. */
  predicate Inserts(s: State, a: Action, run: RunId) {
    || (a.EnqueueInsert? && a.call in s.calls && s.calls[a.call].EnqueueChecked? && a.job !in s.jobs
        && s.calls[a.call].run == run && !HasActive(s, run))
    || (a.RetryInsert? && a.call in s.calls && s.calls[a.call].RetryChecked? && a.job !in s.jobs
        && s.calls[a.call].run == run && run in s.runs && !HasActive(s, run))
  }

  /** The insert also writes the run back to pending. */
  predicate Resets(s: State, a: Action) {
    a.RetryInsert? && a.call in s.calls && s.calls[a.call].RetryChecked? && s.calls[a.call].seen != Pending
  }

  /** An insert into a run that already finished a job, or a reset of a run that is being processed. */
  predicate HarmfulInsert(s: State, a: Action) {
    (a.EnqueueInsert? || a.RetryInsert?) && a.call in s.calls
    && (s.calls[a.call].EnqueueChecked? || s.calls[a.call].RetryChecked?)
    && Inserts(s, a, s.calls[a.call].run)
    && (HasFinished(s, s.calls[a.call].run) || (Resets(s, a) && InFlight(s, s.calls[a.call].run)))
  }

  // ----- effects that respect exclusion ----------------------------------------------------------

  predicate Clears(s: State, e: Effect, run: RunId) {
    forall a :: a in s.pipelines && s.pipelines[a] == run ==> e.pipeline == Exit(a)
  }

  predicate RunWriteRespects(s: State, e: Effect) {
    e.run.Some? ==>
      var RunWrite(run, row) := e.run.value;
      && (row.status.Running? || row.status.RunCancelled? || Clears(s, e, run))
      && (row.status.Completed? || (!HasWrote(s, run) && !HasFinished(s, run)))
  }

  predicate Respects(s: State, e: Effect) {
    && RunWriteRespects(s, e)
    && (e.pipeline.Enter? ==>
          && !InFlight(s, e.pipeline.run)
          && e.run.Some? && e.run.value.run == e.pipeline.run && e.run.value.row.status == Running)
    && (e.message.Some? && e.message.value.pc == Wrote ==>
          if PcIs(s, e.at, Wrote) then e.message.value.run == s.queue[e.at].run
          else e.run.Some? && e.run.value.run == e.message.value.run && e.run.value.row.status == Completed)
    && (e.message.Some? && e.message.value.finishedOnce ==>
          && e.at in s.queue && s.queue[e.at].run == e.message.value.run
          && (s.queue[e.at].finishedOnce
              || (s.queue[e.at].pc == Wrote && e.job.Some? && ActiveFor(s, e.at, e.message.value.run)
                  && e.job.value.status != Queued)))
    && (e.job.Some? && e.job.value.status == Queued ==>
          (e.at in s.jobs && s.jobs[e.at].status == Queued) || !HasFinished(s, e.job.value.run))
  }

  lemma CommitKeepsOnePipeline(s: State, e: Effect)
    requires OnePipelinePerRun(s) && Respects(s, e)
    ensures OnePipelinePerRun(Commit(s, e))
  {
  }

  lemma CommitKeepsRunsHeld(s: State, e: Effect)
    requires OnePipelinePerRun(s) && PipelinesHoldRuns(s) && Respects(s, e)
    ensures PipelinesHoldRuns(Commit(s, e))
  {
  }

  lemma CommitKeepsWritten(s: State, e: Effect)
    requires WrittenRunsCompleted(s) && Respects(s, e)
    ensures WrittenRunsCompleted(Commit(s, e))
  {
  }

  lemma CommitKeepsSettled(s: State, e: Effect, j: JobId)
    requires UniqueActive(s) && WrittenRunsCompleted(s) && FinishedRunsSettled(s)
    requires SameSubject(s, e) && Respects(s, e)
    requires j in Commit(s, e).queue && Commit(s, e).queue[j].finishedOnce
    ensures Settled(Commit(s, e), Commit(s, e).queue[j].run)
  {
    var t := Commit(s, e);
    var run := t.queue[j].run;
    if j in s.queue && s.queue[j].finishedOnce {
      assert HasFinished(s, run) && Settled(s, run);
    } else {
      assert HasWrote(s, run) && StatusIs(s, run, Completed);
      assert ActiveFor(s, j, run);
    }
  }

  lemma RespectfulCommit(s: State, e: Effect)
    requires Inv(s) && JobEffectOk(s, e) && Exclusive(s) && Respects(s, e)
    ensures Exclusive(Commit(s, e))
  {
    CommitKeepsOnePipeline(s, e);
    CommitKeepsRunsHeld(s, e);
    CommitKeepsWritten(s, e);
    forall j: JobId | j in Commit(s, e).queue && Commit(s, e).queue[j].finishedOnce
      ensures Settled(Commit(s, e), Commit(s, e).queue[j].run)
    {
      CommitKeepsSettled(s, e, j);
    }
  }

  // ----- what every other step respects ----------------------------------------------------------

  /** Exclusion, seen from one run: at rest means completed without a queued job, in flight means taken. */
  ghost predicate RunFacts(s: State, run: RunId) {
    && (HasWrote(s, run) || HasFinished(s, run) ==>
          StatusIs(s, run, Completed) && forall j :: j in s.jobs && s.jobs[j].run == run ==> s.jobs[j].status != Queued)
    && (InFlight(s, run) ==> RunTaken(s, run))
  }

  lemma WroteIsActive(s: State, run: RunId)
    requires JobsOk(s)
    ensures HasWrote(s, run) ==> HasActive(s, run)
  {
    if HasWrote(s, run) {
      var w: JobId :| w in s.queue && s.queue[w].pc == Wrote && s.queue[w].run == run;
      assert JobOk(s.jobs[w], Lookup(s.queue, w));
      assert ActiveFor(s, w, run);
    }
  }

  lemma WrittenRunHasNothingQueued(s: State, run: RunId)
    requires JobsOk(s) && UniqueActive(s) && HasWrote(s, run)
    ensures forall j :: j in s.jobs && s.jobs[j].run == run ==> s.jobs[j].status != Queued
  {
    var w: JobId :| w in s.queue && s.queue[w].pc == Wrote && s.queue[w].run == run;
    assert JobOk(s.jobs[w], Lookup(s.queue, w));
    forall j: JobId | j in s.jobs && s.jobs[j].run == run ensures s.jobs[j].status != Queued {
      assert s.jobs[w].status == Started && s.jobs[w].run == run;
    }
  }

  lemma RunFactsHold(s: State, run: RunId)
    requires Inv(s) && Exclusive(s)
    ensures RunFacts(s, run)
  {
    hide JobsOk, UniqueActive, CallsOk, StoreOk;
    if HasWrote(s, run) { WrittenRunHasNothingQueued(s, run); }
  }

  lemma RunStepsRespect(s: State, c: CallId, user: UserId, run: RunId, horizon: nat, ready: bool)
    requires RunFacts(s, run)
    ensures Respects(s, DoCreateRun(s, run, user, horizon))
    ensures Respects(s, DoCancelRun(s, run))
    ensures Respects(s, DoDirectBegin(s, c, user, run, ready))
  {
  }

  lemma BeginRespects(s: State, j: JobId, ready: bool)
    requires PcIs(s, j, Loaded) ==> RunFacts(s, s.queue[j].run)
    ensures Respects(s, DoBegin(s, j, ready))
  {
  }

  lemma CancelRespects(s: State, j: JobId)
    requires InvAt(s, j) && (j in s.jobs ==> RunFacts(s, s.jobs[j].run))
    ensures Respects(s, DoCancelJob(s, j))
  {
  }

  lemma OutcomeRespects(s: State, actor: Actor, out: Output)
    requires actor.Worker? ==> InvAt(s, actor.job)
    requires OnePipelinePerRun(s)
    requires actor in s.pipelines ==> RunFacts(s, s.pipelines[actor])
    ensures Respects(s, DoComplete(s, actor, out))
    ensures Respects(s, DoPipelineFails(s, actor))
    ensures Respects(s, DoInterrupted(s, actor))
  {
  }

  lemma StatusStepsRespect(s: State, j: JobId)
    requires InvAt(s, j)
    ensures Respects(s, DoReconcile(s, j))
    ensures Respects(s, DoLoad(s, j))
    ensures Respects(s, DoTransientBeforeBegin(s, j))
  {
  }

  lemma MarksRespect(s: State, j: JobId)
    requires InvAt(s, j)
    ensures Respects(s, DoMark(s, j, Wrote, Finished, Returning))
    ensures Respects(s, DoMark(s, j, AppFailure, Failed, Returning))
    ensures Respects(s, DoMarkUnexpected(s, j))
  {
  }

  lemma QueueStepsRespect(s: State, j: JobId, delayed: bool)
    requires InvAt(s, j)
    ensures Respects(s, DoFetch(s, j))
    ensures Respects(s, DoRqSuccess(s, j))
    ensures Respects(s, DoRqFailure(s, j, delayed))
    ensures Respects(s, DoWorkerDies(s, j, delayed))
  {
  }

  lemma HarmlessCallStepsRespect(s: State, a: Action)
    requires CallStep(a) && !HarmfulInsert(s, a)
    requires a.RetryInsert? && a.call in s.calls && s.calls[a.call].RetryChecked? ==>
      RunFacts(s, s.calls[a.call].run)
      && (HasWrote(s, s.calls[a.call].run) ==> HasActive(s, s.calls[a.call].run))
    ensures Respects(s, EffectOf(s, a))
  {
  }

  predicate RunStep(a: Action) {
    a.CreateRun? || a.CancelRun? || a.DirectBegin? || a.Begin? || a.CancelJob?
    || a.Complete? || a.PipelineFails? || a.Interrupted?
  }

  lemma JobStepsRespect(s: State, a: Action)
    requires Inv(s) && !CallStep(a) && !RunStep(a)
    ensures Respects(s, EffectOf(s, a))
  {
    hide Inv, InvAt, Respects, DoReconcile, DoLoad, DoTransientBeforeBegin, DoMark;
    match a {
      case Reconcile(j) => InvariantAt(s, j); StatusStepsRespect(s, j);
      case Load(j) => InvariantAt(s, j); StatusStepsRespect(s, j);
      case TransientBeforeBegin(j) => InvariantAt(s, j); StatusStepsRespect(s, j);
      case MarkFinished(j) => InvariantAt(s, j); MarksRespect(s, j);
      case MarkAppFailure(j) => InvariantAt(s, j); MarksRespect(s, j);
      case MarkUnexpected(j) => InvariantAt(s, j); MarksRespect(s, j);
      case Fetch(j) => InvariantAt(s, j); QueueStepsRespect(s, j, false);
      case RqSuccess(j) => InvariantAt(s, j); QueueStepsRespect(s, j, false);
      case RqFailure(j, delayed) => InvariantAt(s, j); QueueStepsRespect(s, j, delayed);
      case WorkerDies(j, delayed) => InvariantAt(s, j); QueueStepsRespect(s, j, delayed);
      case _ => assert false;
    }
  }

  lemma RunGroupRespects(s: State, a: Action)
    requires Inv(s) && Exclusive(s) && RunStep(a)
    ensures Respects(s, EffectOf(s, a))
  {
    hide Inv, Exclusive, Respects, DoCreateRun, DoCancelRun, DoDirectBegin, DoCancelJob, DoBegin;
    hide DoComplete, DoPipelineFails, DoInterrupted;
    match a {
      case CreateRun(run, user, horizon) => RunFactsHold(s, run); RunStepsRespect(s, 0, user, run, horizon, false);
      case CancelRun(run) => RunFactsHold(s, run); RunStepsRespect(s, 0, 0, run, 0, false);
      case DirectBegin(c, user, run, ready) => RunFactsHold(s, run); RunStepsRespect(s, c, user, run, 0, ready);
      case Begin(j, ready) => if PcIs(s, j, Loaded) { RunFactsHold(s, s.queue[j].run); } BeginRespects(s, j, ready);
      case CancelJob(j) =>
        InvariantAt(s, j);
        if j in s.jobs { RunFactsHold(s, s.jobs[j].run); }
        CancelRespects(s, j);
      case Complete(actor, out) => ActorRespects(s, actor, out);
      case PipelineFails(actor) => ActorRespects(s, actor, NO_OUTPUT);
      case Interrupted(actor) => ActorRespects(s, actor, NO_OUTPUT);
      case _ => assert false;
    }
  }

  lemma ActorRespects(s: State, actor: Actor, out: Output)
    requires Inv(s) && Exclusive(s)
    ensures Respects(s, DoComplete(s, actor, out))
    ensures Respects(s, DoPipelineFails(s, actor))
    ensures Respects(s, DoInterrupted(s, actor))
  {
    if actor.Worker? { InvariantAt(s, actor.job); }
    if actor in s.pipelines { RunFactsHold(s, s.pipelines[actor]); }
    OutcomeRespects(s, actor, out);
  }

  /** Every step but a harmful insert respects exclusion. */
  lemma HarmlessStepsRespect(s: State, a: Action)
    requires Inv(s) && Exclusive(s) && !HarmfulInsert(s, a)
    ensures Respects(s, EffectOf(s, a))
  {
    if RunStep(a) {
      RunGroupRespects(s, a);
    } else if !CallStep(a) {
      JobStepsRespect(s, a);
    } else {
      if a.RetryInsert? && a.call in s.calls && s.calls[a.call].RetryChecked? {
        var run := s.calls[a.call].run;
        RunFactsHold(s, run);
        WroteIsActive(s, run);
      }
      HarmlessCallStepsRespect(s, a);
    }
  }

  lemma HarmlessStep(s: State, a: Action)
    requires Inv(s) && Exclusive(s) && !HarmfulInsert(s, a)
    ensures Inv(Next(s, a)) && Exclusive(Next(s, a))
  {
    HarmlessStepsRespect(s, a);
    StepIsOk(s, a);
    RespectfulCommit(s, EffectOf(s, a));
    InvariantStep(s, a);
  }

  // ----- what a harmful insert leads to ------------------------------------------------------------

  lemma {:induction false} FreshCall(calls: set<CallId>) returns (c: CallId)
    ensures forall d :: d in calls ==> d < c
    decreases |calls|
  {
    if calls == {} {
      c := 0;
    } else {
      var d: CallId :| d in calls;
      var rest := FreshCall(calls - {d});
      c := if rest <= d then d + 1 else rest;
      forall e | e in calls ensures e < c {
        assert e == d || e in calls - {d};
      }
    }
  }

  /** What a harmful insert leaves: a new queued row, and the run pending again if it was reset. */
  lemma AfterHarmfulInsert(s: State, a: Action)
    requires Inv(s) && HarmfulInsert(s, a)
    ensures var t, user, run := Next(s, a), s.calls[a.call].user, s.calls[a.call].run;
      && t.queue == s.queue && t.pipelines == s.pipelines && a.job !in t.queue
      && a.job in t.jobs && t.jobs[a.job].status == Queued && t.jobs[a.job].run == run
      && OwnsRun(t, user, run)
      && (Resets(s, a) ==> StatusIs(t, run, Pending))
  {
    hide UniqueActive, PipelinesOk, StoreOk, HasFinished, InFlight;
    assert CallOk(s, s.calls[a.call]);
    assert a.job !in s.jobs && InvAt(s, a.job) by { InvariantAt(s, a.job); }
  }

  /** Cancelling a queued job takes its run along, whatever the run was. */
  lemma CancelUndoesCompletion(t: State, j: JobId, run: RunId)
    requires HasFinished(t, run) && j !in t.queue && j in t.jobs
    requires t.jobs[j].status == Queued && t.jobs[j].run == run && run in t.runs
    ensures !FinishedRunsCompleted(Next(t, CancelJob(j)))
  {
    var i: JobId :| i in t.queue && t.queue[i].finishedOnce && t.queue[i].run == run;
    var u := Next(t, CancelJob(j));
    assert u.queue == t.queue && StatusIs(u, run, RunCancelled);
  }

  /** A direct call enters a pending run although another actor is processing it. */
  lemma SecondPipelineEnters(t: State, c: CallId, user: UserId, run: RunId)
    requires InFlight(t, run) && OwnsRun(t, user, run) && StatusIs(t, run, Pending) && Api(c) !in t.pipelines
    ensures !OnePipelinePerRun(Next(t, DirectBegin(c, user, run, true)))
  {
    var p: Actor :| p in t.pipelines && t.pipelines[p] == run;
    var u := Next(t, DirectBegin(c, user, run, true));
    assert u.pipelines == t.pipelines[Api(c) := run];
    assert u.pipelines[p] == u.pipelines[Api(c)] && p != Api(c);
  }

  lemma FreshDirectCall(t: State) returns (c: CallId)
    ensures Api(c) !in t.pipelines
  {
    var direct := set p | p in t.pipelines && p.Api? :: p.call;
    c := FreshCall(direct);
    forall p | p in t.pipelines && p.Api? ensures p.call < c {
      assert p.call in direct;
    }
  }

  /** A harmful insert is one step away from a broken promise, and that step is no insert. */
  lemma HarmfulInsertDoesHarm(s: State, a: Action) returns (b: Action)
    requires Inv(s) && HarmfulInsert(s, a)
    ensures b.CancelJob? || b.DirectBegin?
    ensures !Promised(Next(Next(s, a), b))
  {
    hide Inv, Next, OnePipelinePerRun, FinishedRunsCompleted, OwnsRun;
    var t, user, run := Next(s, a), s.calls[a.call].user, s.calls[a.call].run;
    AfterHarmfulInsert(s, a);
    if HasFinished(s, run) {
      OwnedRunExists(t, user, run);
      CancelUndoesCompletion(t, a.job, run);
      b := CancelJob(a.job);
    } else {
      var c := FreshDirectCall(t);
      SecondPipelineEnters(t, c, user, run);
      b := DirectBegin(c, user, run, true);
    }
  }

  lemma OwnedRunExists(s: State, user: UserId, run: RunId)
    requires OwnsRun(s, user, run)
    ensures run in s.runs
  {
  }

  // ----- the exact condition, for steps and for traces -----------------------------------------------

  ghost predicate HarmlessTrace(s: State, actions: seq<Action>)
    decreases |actions|
  {
    actions == [] || (!HarmfulInsert(s, actions[0]) && HarmlessTrace(Next(s, actions[0]), actions[1..]))
  }

  lemma {:induction false} ExclusionAlongTraces(s: State, actions: seq<Action>)
    requires Inv(s) && Exclusive(s) && HarmlessTrace(s, actions)
    ensures Inv(Trace(s, actions)) && Exclusive(Trace(s, actions))
    decreases |actions|
  {
    if actions != [] {
      HarmlessStep(s, actions[0]);
      ExclusionAlongTraces(Next(s, actions[0]), actions[1..]);
    }
  }

  lemma ExclusiveIsPromised(s: State)
    requires Exclusive(s)
    ensures Promised(s)
  {
  }

  /** The promises hold now and after every continuation without harmful inserts. */
  ghost predicate Safe(s: State) {
    forall more :: HarmlessTrace(s, more) ==> Promised(Trace(s, more))
  }

  lemma ExclusiveIsSafe(s: State)
    requires Inv(s) && Exclusive(s)
    ensures Safe(s)
  {
    forall more | HarmlessTrace(s, more) ensures Promised(Trace(s, more)) {
      ExclusionAlongTraces(s, more);
      ExclusiveIsPromised(Trace(s, more));
    }
  }

  lemma OneStepUnsafe(s: State, b: Action)
    requires b.CancelJob? || b.DirectBegin?
    requires !Promised(Next(s, b))
    ensures !Safe(s)
  {
    hide Promised, Next;
    assert [b][1..] == [];
    assert Trace(Next(s, b), []) == Next(s, b) && Trace(s, [b]) == Next(s, b);
    assert HarmlessTrace(Next(s, b), []) && HarmlessTrace(s, [b]);
  }

  /**
    A step leaves the promises safe if and only if it is not a harmful insert: nothing else endangers
    them, and after a harmful insert one further call breaks one of them.
    */
  lemma ExclusionStep(s: State, a: Action)
    requires Inv(s) && Exclusive(s)
    ensures Safe(Next(s, a)) <==> !HarmfulInsert(s, a)
  {
    hide *;
    if HarmfulInsert(s, a) {
      var b := HarmfulInsertDoesHarm(s, a);
      OneStepUnsafe(Next(s, a), b);
    } else {
      HarmlessStep(s, a);
      ExclusiveIsSafe(Next(s, a));
    }
  }

  /** The promises are safe at every point of a trace. */
  ghost predicate SafeAlong(s: State, actions: seq<Action>)
    decreases |actions|
  {
    Safe(s) && (actions == [] || SafeAlong(Next(s, actions[0]), actions[1..]))
  }

  lemma {:induction false} SafeExactly(s: State, actions: seq<Action>)
    requires Inv(s) && Exclusive(s)
    ensures SafeAlong(s, actions) <==> HarmlessTrace(s, actions)
    decreases |actions|
  {
    hide Inv, Exclusive, HarmfulInsert, Next, Safe;
    ExclusiveIsSafe(s);
    if actions != [] {
      ExclusionStep(s, actions[0]);
      if HarmfulInsert(s, actions[0]) {
        assert !SafeAlong(Next(s, actions[0]), actions[1..]);
      } else {
        HarmlessStep(s, actions[0]);
        SafeExactly(Next(s, actions[0]), actions[1..]);
      }
    }
  }

  /**
    For every interleaving from the empty system: both promises are safe throughout if and only if it
    holds no insert into a run that finished a job and no reset of a run that is being processed.
    */
  lemma PromisesHoldExactly(actions: seq<Action>)
    ensures SafeAlong(INIT, actions) <==> HarmlessTrace(INIT, actions)
  {
    SafeExactly(INIT, actions);
  }

  // ----- what follows for one run ----------------------------------------------------------------------

  /** Without harmful inserts, at most one pipeline is ever in flight for a run. */
  lemma OnePipelinePerRunAlways(actions: seq<Action>, a: Actor, b: Actor)
    requires HarmlessTrace(INIT, actions)
    requires a in Trace(INIT, actions).pipelines && b in Trace(INIT, actions).pipelines
    requires Trace(INIT, actions).pipelines[a] == Trace(INIT, actions).pipelines[b]
    ensures a == b
  {
    ExclusionAlongTraces(INIT, actions);
  }

  predicate FinishedOnce(s: State, j: JobId) {
    j in s.queue && s.queue[j].finishedOnce
  }

  /** The job is finished now or at some later point of the trace. */
  ghost predicate EverFinished(s: State, actions: seq<Action>, j: JobId)
    decreases |actions|
  {
    || (j in s.jobs && s.jobs[j].status == Finished)
    || (actions != [] && EverFinished(Next(s, actions[0]), actions[1..], j))
  }

  lemma CallStepKeepsHistory(s: State, a: Action, j: JobId)
    requires CallsOk(s) && CallStep(a)
    ensures FinishedOnce(Next(s, a), j) == FinishedOnce(s, j)
  {
    if a.Dispatch? && a.call in s.calls { assert CallOk(s, s.calls[a.call]); }
  }

  /** An effect of a worker or of RQ keeps the history bit, or sets it together with the status. */
  predicate HistoryEffectOk(s: State, e: Effect) {
    e.message.Some? ==>
      && e.at in s.queue
      && (s.queue[e.at].finishedOnce ==> e.message.value.finishedOnce)
      && (e.message.value.finishedOnce && !s.queue[e.at].finishedOnce ==>
            e.job.Some? && e.job.value.status == Finished)
  }

  lemma QueueStepHistory(s: State, a: Action)
    requires QueueStep(a)
    ensures HistoryEffectOk(s, EffectOf(s, a))
  {
  }

  lemma RunStepHistory(s: State, a: Action)
    requires !QueueStep(a) && !CallStep(a)
    ensures HistoryEffectOk(s, EffectOf(s, a))
  {
  }

  lemma OtherStepHistory(s: State, a: Action, j: JobId)
    requires !CallStep(a)
    ensures FinishedOnce(s, j) ==> FinishedOnce(Next(s, a), j)
    ensures FinishedOnce(Next(s, a), j) && !FinishedOnce(s, j) ==>
      j in Next(s, a).jobs && Next(s, a).jobs[j].status == Finished
  {
    hide EffectOf;
    if QueueStep(a) { QueueStepHistory(s, a); } else { RunStepHistory(s, a); }
  }

  /** The history bit of a message says what the trace says: the job was finished at some point. */
  lemma {:induction false} HistoryIsTrue(s: State, actions: seq<Action>, j: JobId)
    requires Inv(s)
    ensures FinishedOnce(Trace(s, actions), j) <==> FinishedOnce(s, j) || EverFinished(s, actions, j)
    decreases |actions|
  {
    InvariantAt(s, j);
    if actions != [] {
      var a := actions[0];
      InvariantStep(s, a);
      InvariantAt(Next(s, a), j);
      HistoryIsTrue(Next(s, a), actions[1..], j);
      if CallStep(a) { CallStepKeepsHistory(s, a, j); } else { OtherStepHistory(s, a, j); }
    }
  }

  /**
    Without harmful inserts, once a job was finished at some point its run is completed in every
    later state, even while a late retry runs that job again.
    */
  lemma FinishedMeansCompletedForEver(actions: seq<Action>, j: JobId)
    requires HarmlessTrace(INIT, actions) && EverFinished(INIT, actions, j)
    ensures var s := Trace(INIT, actions);
      j in s.jobs && StatusIs(s, s.jobs[j].run, Completed)
  {
    HistoryIsTrue(INIT, actions, j);
    ExclusionAlongTraces(INIT, actions);
    InvariantAt(Trace(INIT, actions), j);
    assert Settled(Trace(INIT, actions), Trace(INIT, actions).queue[j].run);
  }

  // ----- a condition that callers can check ---------------------------------------------------------------

  /** An insert is timely if the run can still be processed when it commits. */
  predicate Timely(s: State, a: Action) {
    (a.EnqueueInsert? || a.RetryInsert?) && a.call in s.calls
    && (s.calls[a.call].EnqueueChecked? || s.calls[a.call].RetryChecked?) ==>
      s.calls[a.call].run in s.runs && RunProcessable(s.runs[s.calls[a.call].run].status)
  }

  ghost predicate TimelyTrace(s: State, actions: seq<Action>)
    decreases |actions|
  {
    actions == [] || (Timely(s, actions[0]) && TimelyTrace(Next(s, actions[0]), actions[1..]))
  }

  lemma TimelyIsHarmless(s: State, a: Action)
    requires Inv(s) && Exclusive(s) && Timely(s, a)
    ensures !HarmfulInsert(s, a)
  {
    hide Inv, Exclusive;
    if (a.EnqueueInsert? || a.RetryInsert?) && a.call in s.calls
       && (s.calls[a.call].EnqueueChecked? || s.calls[a.call].RetryChecked?) {
      RunFactsHold(s, s.calls[a.call].run);
    }
  }

  /** Checking the run's status again in the transaction of the insert would be enough. */
  lemma {:induction false} TimelyTracesAreHarmless(s: State, actions: seq<Action>)
    requires Inv(s) && Exclusive(s) && TimelyTrace(s, actions)
    ensures HarmlessTrace(s, actions)
    decreases |actions|
  {
    if actions != [] {
      TimelyIsHarmless(s, actions[0]);
      HarmlessStep(s, actions[0]);
      TimelyTracesAreHarmless(Next(s, actions[0]), actions[1..]);
    }
  }
}
