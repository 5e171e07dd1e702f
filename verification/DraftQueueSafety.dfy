/** What the draft queue promises over whole runs, any number of crashes included. */
module DraftQueueSafety {
  import opened Prelude
  import opened DraftQueue
  import opened DraftQueueInvariant
  import opened LifecycleReport

  /** A run of the daemon, from a cold start on whatever sidecar the vault holds. */
  datatype Run = Run(states: seq<State>, steps: seq<Step>)

  ghost predicate IsRun(run: Run) {
    && |run.states| == |run.steps| + 1
    && run.states[0] == Cold(run.states[0].sidecar)
    && forall i :: 0 <= i < |run.steps| ==>
         Enabled(run.states[i], run.steps[i]) && run.states[i + 1] == Next(run.states[i], run.steps[i])
  }

  lemma {:induction false} EveryStateSound(run: Run, i: nat)
    requires IsRun(run) && i < |run.states|
    ensures Inv(run.states[i])
  {
    if i == 0 {
      ColdIsInv(run.states[0].sidecar);
    } else {
      EveryStateSound(run, i - 1);
      StepKeeps(run.states[i - 1], run.steps[i - 1]);
    }
  }

  // ------------------------------------------------------------------ nobody is stuck

  /** In every reachable state each thread has its next section open to it, whatever a handler answers. */
  lemma NobodyIsStuck(run: Run, i: nat)
    requires IsRun(run) && i < |run.states|
    ensures var s := run.states[i];
      && (s.worker.None? && s.queue != [] ==> Enabled(s, TakeJob))
      && (s.worker.Some? ==> s.worker.value in s.jobs && WorkerCanGoOn(s, s.jobs[s.worker.value].stage))
      && forall j: JobId :: CallerCanGoOn(s, j)
  {
    EveryStateSound(run, i);
    var s := run.states[i];
    hide *;
    QueueIsKnown(s);
    if s.worker.Some? { WorkerGoesOn(s); }
    forall j: JobId
      ensures CallerCanGoOn(s, j)
    {
      CallerGoesOn(s, j);
    }
  }

  lemma QueueIsKnown(s: State)
    requires Inv(s)
    ensures s.worker.None? && s.queue != [] ==> Enabled(s, TakeJob)
  {
    hide JobsSound, EventsSound, ClaimsSound, SidecarSound, CountersSound;
    if s.queue != [] { assert s.queue[0] in s.queue; }
  }

  lemma WorkersJob(s: State)
    requires Inv(s) && s.worker.Some?
    ensures s.worker.value in s.jobs && s.jobs[s.worker.value].stage.OnWorker() && JobSound(s.jobs[s.worker.value])
  {
    hide QueueSound, EventsSound, ClaimsSound, SidecarSound, CountersSound;
  }

  lemma WorkerGoesOn(s: State)
    requires Inv(s) && s.worker.Some?
    ensures s.worker.value in s.jobs && WorkerCanGoOn(s, s.jobs[s.worker.value].stage)
  {
    hide Inv;
    WorkersJob(s);
  }

  lemma CallerGoesOn(s: State, j: JobId)
    ensures CallerCanGoOn(s, j)
  {
  }

  /** One of the worker's sections is open at this stage of its batch. */
  ghost predicate WorkerCanGoOn(s: State, stage: Stage) {
    match stage
    case Writing => Enabled(s, FinishWrite(true)) && Enabled(s, FinishWrite(false))
    case WriteFailed => Enabled(s, CountFailure)
    case Written => Enabled(s, ClaimLifecycle)
    case Applying => forall outcome :: Enabled(s, ApplyDeferred(outcome))
    case Finishing(_) => Enabled(s, FinishJob)
    case _ => false
  }

  /** A new job may be submitted; a caller in the middle of its call may go on; the others are done. */
  ghost predicate CallerCanGoOn(s: State, j: JobId) {
    if j !in s.jobs then
      forall p, n, wait, life, handler :: Enabled(s, Submit(j, p, n, wait, life, handler))
    else match s.jobs[j].caller
    case Reapplying(_) => forall outcome :: Enabled(s, Reapplied(j, outcome))
    case Releasing(_) => Enabled(s, Release(j))
    case Waiting => Enabled(s, TimeOut(j)) && (s.jobs[j].done ==> Enabled(s, ObserveDone(j)))
    case Replied(_) => true
  }

  /** How many sections the worker still has to go through with its batch, at most. */
  function WorkLeft(s: State): nat {
    if s.worker.None? || s.worker.value !in s.jobs then 0
    else match s.jobs[s.worker.value].stage
    case Writing => 4
    case Written => 3
    case WriteFailed => 2
    case Applying => 2
    case _ => 1
  }

  predicate IsWorkers(step: Step) {
    step.FinishWrite? || step.CountFailure? || step.ClaimLifecycle? || step.ApplyDeferred? || step.FinishJob?
  }

  /** Every section of the worker brings its batch nearer to its end, and nobody else's but a crash ends it. */
  lemma WorkerAdvances(run: Run, i: nat)
    requires IsRun(run) && i < |run.steps|
    ensures IsWorkers(run.steps[i]) ==> WorkLeft(run.states[i + 1]) < WorkLeft(run.states[i])
    ensures run.steps[i].TakeJob? ==> WorkLeft(run.states[i]) == 0 && WorkLeft(run.states[i + 1]) == 4
    ensures !IsWorkers(run.steps[i]) && !run.steps[i].TakeJob? && !run.steps[i].Crash? ==>
              WorkLeft(run.states[i + 1]) == WorkLeft(run.states[i])
  {
    EveryStateSound(run, i);
    assert Enabled(run.states[i], run.steps[i]) && run.states[i + 1] == Next(run.states[i], run.steps[i]);
    StepWorks(run.states[i], run.steps[i]);
  }

  lemma StepWorks(s: State, step: Step)
    requires Inv(s) && Enabled(s, step)
    ensures IsWorkers(step) ==> WorkLeft(Next(s, step)) < WorkLeft(s)
    ensures step.TakeJob? ==> WorkLeft(s) == 0 && WorkLeft(Next(s, step)) == 4
    ensures !IsWorkers(step) && !step.TakeJob? && !step.Crash? ==> WorkLeft(Next(s, step)) == WorkLeft(s)
  {
    hide Inv, Next, Enabled, WorkLeft;
    if IsWorkers(step) {
      WorkerStepWorks(s, step);
    } else if step.TakeJob? {
      TakeJobWorks(s);
    } else if !step.Crash? {
      OtherStepWorks(s, step);
    }
  }

  lemma TakeJobWorks(s: State)
    requires Enabled(s, TakeJob)
    ensures WorkLeft(s) == 0 && WorkLeft(Next(s, TakeJob)) == 4
  {
  }

  lemma WorkerStepWorks(s: State, step: Step)
    requires Enabled(s, step) && IsWorkers(step)
    ensures WorkLeft(Next(s, step)) < WorkLeft(s)
  {
    match step
    case FinishWrite(landed) => FinishWriteWorks(s, landed);
    case CountFailure => CountFailureWorks(s);
    case ClaimLifecycle => ClaimWorks(s);
    case ApplyDeferred(outcome) => ApplyWorks(s, outcome);
    case FinishJob => FinishJobWorks(s);
  }

  lemma FinishWriteWorks(s: State, landed: bool)
    requires Enabled(s, FinishWrite(landed))
    ensures WorkLeft(FinishWriteStep(s, landed)) < WorkLeft(s)
  {
  }

  lemma CountFailureWorks(s: State)
    requires Enabled(s, CountFailure)
    ensures WorkLeft(CountFailureStep(s)) < WorkLeft(s)
  {
  }

  lemma ClaimWorks(s: State)
    requires Enabled(s, ClaimLifecycle)
    ensures WorkLeft(ClaimLifecycleStep(s)) < WorkLeft(s)
  {
  }

  lemma ApplyWorks(s: State, outcome: Outcome)
    requires Enabled(s, ApplyDeferred(outcome))
    ensures WorkLeft(ApplyDeferredStep(s, outcome)) < WorkLeft(s)
  {
    hide Complete;
  }

  lemma FinishJobWorks(s: State)
    requires Enabled(s, FinishJob)
    ensures WorkLeft(FinishJobStep(s)) < WorkLeft(s)
  {
  }

  /** The worker's job, if there is one, is at the same stage in both states. */
  predicate SameWork(s: State, t: State) {
    t.worker == s.worker
    && (s.worker.Some? && s.worker.value in s.jobs ==>
          s.worker.value in t.jobs && t.jobs[s.worker.value].stage == s.jobs[s.worker.value].stage)
  }

  lemma OtherStepWorks(s: State, step: Step)
    requires Inv(s) && Enabled(s, step) && !IsWorkers(step) && !step.TakeJob? && !step.Crash?
    ensures WorkLeft(Next(s, step)) == WorkLeft(s)
  {
    if s.worker.Some? { WorkersJob(s); }
    hide Inv, WorkLeft;
    if step.Submit? {
      SubmitSameWork(s, step.j, NewJob(step.pass, step.drafts, step.wait, step.lifecycle, step.handler));
    } else if step.Reapplied? {
      ReapplierIsElsewhere(s, step.j);
      ReappliedSameWork(s, step.j, step.outcome);
    }
    SameWorkLeft(s, Next(s, step));
  }

  lemma SameWorkLeft(s: State, t: State)
    requires SameWork(s, t) && (s.worker.Some? ==> s.worker.value in s.jobs)
    ensures WorkLeft(t) == WorkLeft(s)
  {
  }

  lemma ReapplierIsElsewhere(s: State, j: JobId)
    requires Inv(s) && j in s.jobs && s.jobs[j].caller.Reapplying?
    ensures s.worker != Some(j)
  {
    assert JobSound(s.jobs[j]);
    hide QueueSound, EventsSound, ClaimsSound, SidecarSound, CountersSound;
  }

  lemma SubmitSameWork(s: State, j: JobId, job: Job)
    requires j !in s.jobs && (s.worker.Some? ==> s.worker.value in s.jobs)
    ensures SameWork(s, SubmitStep(s, j, job))
  {
    hide Merge, Offered;
  }

  lemma ReappliedSameWork(s: State, j: JobId, outcome: Outcome)
    requires j in s.jobs && s.jobs[j].caller.Reapplying? && s.worker != Some(j)
    requires s.worker.Some? ==> s.worker.value in s.jobs
    ensures SameWork(s, ReappliedStep(s, j, outcome))
  {
    hide ApplyVerdict, Offered;
  }

  // ---------------------------------------------------- one batch per pass at a time

  /** A job whose drafts are promised to the vault and not yet there. */
  predicate BatchUnfinished(s: State, j: JobId) {
    j in s.jobs && (s.jobs[j].stage.Queued? || s.jobs[j].stage.Writing?)
  }

  /** In every interleaving, a pass has at most one unfinished batch. */
  lemma AtMostOneUnfinishedBatch(run: Run, i: nat, j: JobId, k: JobId)
    requires IsRun(run) && i < |run.states|
    requires BatchUnfinished(run.states[i], j) && BatchUnfinished(run.states[i], k)
    requires run.states[i].jobs[j].pass == run.states[i].jobs[k].pass
    ensures j == k
  {
    EveryStateSound(run, i);
    assert run.states[i].jobs[j].stage.Busy() && run.states[i].jobs[k].stage.Busy();
  }

  /** An unset event with nobody left to set it always has a held decision set behind it. */
  lemma NoPassIsWedged(run: Run, i: nat, p: Pass)
    requires IsRun(run) && i < |run.states|
    requires var s := run.states[i];
             EventUnset(s, p) && !s.jobs[s.inFlight[p]].stage.Queued? && !s.jobs[s.inFlight[p]].stage.OnWorker()
    ensures var s := run.states[i];
            p in s.pending && (s.sidecar.Readable? ==> p in s.sidecar.passes)
  {
    EveryStateSound(run, i);
    var s := run.states[i];
    assert p in s.pending && p in Lives(s.pending) && s != Cold(s.sidecar);
  }

  /**
   A held pass can always move on: a submission that brings a handler becomes the claimant with
   the held decision set, unless one live call already holds the claim; and once a claimant's
   re-apply is complete the pass accepts a batch again.
   */
  lemma HeldPassCanRecover(s: State, j: JobId, job: Job)
    requires Inv(s) && s.sidecar.Readable? && job.pass in s.sidecar.passes && j !in s.jobs
    requires job == NewJob(job.pass, job.drafts, job.wait, job.lifecycle, true)
    ensures var t := SubmitStep(s, j, job);
            if job.pass in s.reapplying
            then exists k :: ClaimsPass(s.jobs, k, job.pass)
            else t.jobs[j].caller == Reapplying(s.sidecar.passes[job.pass]) && job.pass in t.reapplying
  {
    HydrateKeeps(s);
    var h := Hydrate(s);
    assert job.pass in Lives(h.pending);
  }

  /** ... and the pass then has no event left unset but that of the batch just queued, if any. */
  lemma CompleteReapplyFreesPass(s: State, j: JobId, outcome: Outcome)
    requires Inv(s) && Enabled(s, Reapplied(j, outcome)) && Complete(outcome, s.jobs[j].caller.payload)
    ensures var p, t := s.jobs[j].pass, Next(s, Reapplied(j, outcome));
            p !in t.pending && (t.sidecar.Readable? ==> p !in t.sidecar.passes)
            && if t.jobs[j].stage.Queued? then t.inFlight[p] == j else !EventUnset(t, p)
  {
    var p := s.jobs[j].pass;
    RecoveredKeeps(s, j);
    hide JobSound, JobsSound, QueueSound, WorkerSound, EventsSound, ClaimsSound, SidecarSound, CountersSound;
    var d := SetPriorEvent(Discharge(WithCaller(s, j, Releasing(Replied(LifecycleRecovered))), p), p);
    assert d.sidecar == s.sidecar.Clear(p);
    if !ApplyVerdict(outcome.report, s.jobs[j].caller.payload).didWork {
      OfferedFrees(d, j);
    }
  }

  lemma OfferedFrees(d: State, j: JobId)
    requires j in d.jobs && d.jobs[j].stage.NotQueued? && !EventUnset(d, d.jobs[j].pass)
    ensures var t, p := Enqueue(d, j, d.jobs[j], true), d.jobs[j].pass;
            if t.jobs[j].stage.Queued? then t.inFlight[p] == j else !EventUnset(t, p)
  {
    hide Enqueue;
    if Full(d) {
      assert Offered(d, d.jobs[j], true).done == d.jobs[j].done;
    }
  }

  // ------------------------------------------------ held decision sets block batches

  /** The step puts a new batch of the pass in the queue. */
  ghost predicate Enqueues(s: State, step: Step, p: Pass)
    requires Enabled(s, step)
  {
    exists j :: j in Next(s, step).jobs && Next(s, step).jobs[j].stage.Queued? && Next(s, step).jobs[j].pass == p
                && !(j in s.jobs && s.jobs[j].stage.Queued?)
  }

  /** The step is a re-apply of exactly this decision set that reports it complete. */
  predicate Discharges(s: State, step: Step, p: Pass, life: Lifecycle)
    requires Enabled(s, step)
  {
    step.Reapplied? && s.jobs[step.j].pass == p && s.jobs[step.j].caller.payload == life
    && Complete(step.outcome, life)
  }

  /** The durable record of the decision set, or, once the sidecar is unreadable, no other claim. */
  ghost predicate Owed(s: State, p: Pass, life: Lifecycle) {
    match s.sidecar
    case Readable(passes) => p in passes && passes[p] == life
    case Unreadable =>
      forall j :: j in s.jobs && s.jobs[j].caller.Reapplying? && s.jobs[j].pass == p ==>
          s.jobs[j].caller.payload == life
  }

  /** The jobs of the pass that are queued or re-applying in `t` were so in `s`. */
  predicate NothingNew(s: State, t: State, p: Pass) {
    forall k | k in t.jobs && t.jobs[k].pass == p ::
      (t.jobs[k].stage.Queued? ==> k in s.jobs && s.jobs[k].stage.Queued?)
      && (t.jobs[k].caller.Reapplying? ==>
            k in s.jobs && s.jobs[k].pass == p && s.jobs[k].caller == t.jobs[k].caller)
  }

  lemma NothingNewOne(s: State, t: State, j: JobId, p: Pass)
    requires j in t.jobs && t.jobs == s.jobs[j := t.jobs[j]]
    requires t.jobs[j].pass == p ==> (t.jobs[j].stage.Queued? ==> j in s.jobs && s.jobs[j].stage.Queued?)
    requires t.jobs[j].pass == p ==> (t.jobs[j].caller.Reapplying? ==>
               j in s.jobs && s.jobs[j].pass == p && t.jobs[j].caller == s.jobs[j].caller)
    ensures NothingNew(s, t, p)
  {
  }

  /** The hold of `p` survives a durable update that keeps its entry. */
  lemma OwedFrame(s: State, t: State, p: Pass, life: Lifecycle)
    requires Owed(s, p, life) && NothingNew(s, t, p)
    requires t.sidecar.Readable? == s.sidecar.Readable?
    requires s.sidecar.Readable? ==> p in t.sidecar.passes && t.sidecar.passes[p] == s.sidecar.passes[p]
    ensures Owed(t, p, life)
  {
  }

  lemma PutOne(before: map<JobId, Job>, after: map<JobId, Job>, j: JobId, put: Job)
    requires after == before[j := put]
    ensures j in after && after[j] == put && after == before[j := after[j]]
  {
  }

  /** What a submission to a hydrated process makes of its own job. */
  function Submitted(h: State, job: Job): Job {
    if job.pass in h.pending then
      if job.pass !in h.reapplying && (job.handler || h.pending[job.pass].handler)
      then job.(caller := Reapplying(h.pending[job.pass].life)) else job
    else if EventUnset(h, job.pass) then job
    else Offered(h, job, false)
  }

  lemma SubmitPuts(h: State, j: JobId, job: Job)
    ensures SubmitHydrated(h, j, job).jobs == h.jobs[j := Submitted(h, job)]
    ensures SubmitHydrated(h, j, job).sidecar == h.sidecar
  {
    hide Enqueue, EventUnset, Offered;
  }

  lemma OfferedKeepsPass(h: State, job: Job)
    ensures Offered(h, job, false).pass == job.pass
  {
  }

  lemma SubmittedKeeps(h: State, job: Job)
    ensures Submitted(h, job).pass == job.pass
    ensures job.pass in h.pending ==> Submitted(h, job).stage == job.stage
  {
    OfferedKeepsPass(h, job);
    hide EventUnset, Offered;
  }

  lemma SubmitTouchesOne(h: State, j: JobId, job: Job)
    ensures var t := SubmitHydrated(h, j, job);
            t.sidecar == h.sidecar && j in t.jobs && t.jobs == h.jobs[j := t.jobs[j]] && t.jobs[j].pass == job.pass
            && (job.pass in h.pending ==> t.jobs[j].stage == job.stage)
  {
    SubmitPuts(h, j, job);
    SubmittedKeeps(h, job);
    hide SubmitHydrated, Submitted;
    PutOne(h.jobs, SubmitHydrated(h, j, job).jobs, j, Submitted(h, job));
  }

  lemma OwedThroughSubmit(s: State, j: JobId, job: Job, p: Pass, life: Lifecycle)
    requires Inv(s) && j !in s.jobs && Owed(s, p, life)
    requires job.stage.NotQueued? && job.caller == Replied(WriteInFlight)
    ensures var t := SubmitStep(s, j, job);
            t.sidecar == s.sidecar && j in t.jobs && t.jobs == s.jobs[j := t.jobs[j]] && t.jobs[j].pass == job.pass
            && (t.jobs[j].stage.Queued? ==> job.pass != p)
            && (s.sidecar.Unreadable? || job.pass != p ==> NothingNew(s, t, p))
  {
    hide JobSound, JobsSound, QueueSound, WorkerSound, EventsSound, ClaimsSound, SidecarSound, CountersSound;
    var t := SubmitStep(s, j, job);
    if s.sidecar.Readable? {
      HydrateKeeps(s);
      assert p in Lives(Hydrate(s).pending);
      SubmitTouchesOne(Hydrate(s), j, job);
    }
    hide SubmitHydrated, NothingNew;
    if s.sidecar.Unreadable? || job.pass != p {
      NothingNewOne(s, t, j, p);
    }
  }

  lemma ClaimantMirrored(s: State, j: JobId)
    requires JobsSound(s) && ClaimsSound(s) && SidecarSound(s) && j in s.jobs && s.jobs[j].caller.Reapplying?
    ensures s.jobs[j].pass in s.pending && s.pending[s.jobs[j].pass].life == s.jobs[j].caller.payload
    ensures s.sidecar.Readable? ==>
              s.jobs[j].pass in s.sidecar.passes && s.sidecar.passes[s.jobs[j].pass] == s.jobs[j].caller.payload
  {
    assert s.sidecar.Readable? ==> s.jobs[j].pass in Lives(s.pending);
  }

  /** A re-apply that is not complete holds the very decision set again. */
  lemma RefusedReapply(s: State, j: JobId, outcome: Outcome)
    requires Enabled(s, Reapplied(j, outcome)) && !Complete(outcome, s.jobs[j].caller.payload)
    requires s.jobs[j].pass in s.pending && s.pending[s.jobs[j].pass].life == s.jobs[j].caller.payload
    ensures var t := Next(s, Reapplied(j, outcome));
            t.sidecar == s.sidecar.Persist(s.jobs[j].pass, s.jobs[j].caller.payload)
            && j in t.jobs && t.jobs == s.jobs[j := t.jobs[j]] && t.jobs[j].pass == s.jobs[j].pass
            && t.jobs[j].stage == s.jobs[j].stage && t.jobs[j].caller == Releasing(Replied(WriteInFlight))
  {
  }

  lemma OwedThroughReapply(s: State, j: JobId, outcome: Outcome, p: Pass, life: Lifecycle)
    requires Inv(s) && Enabled(s, Reapplied(j, outcome)) && Owed(s, p, life)
    requires !Discharges(s, Reapplied(j, outcome), p, life)
    ensures var t := Next(s, Reapplied(j, outcome));
            Owed(t, p, life) && NothingNew(s, t, p)
  {
    hide JobSound, JobsSound, QueueSound, WorkerSound, EventsSound, ClaimsSound, SidecarSound, CountersSound;
    hide SetPriorEvent, Enqueue, NothingNew;
    var q, t := s.jobs[j].pass, Next(s, Reapplied(j, outcome));
    var payload := s.jobs[j].caller.payload;
    ClaimantMirrored(s, j);
    if Complete(outcome, payload) {
      assert q != p && t.sidecar == s.sidecar.Clear(q);
      ReapplyCompleteMoves(s, j, outcome, p);
    } else {
      RefusedReapply(s, j, outcome);
      NothingNewOne(s, t, j, p);
    }
    hide Next;
    OwedFrame(s, t, p, life);
  }

  lemma ReapplyCompleteMoves(s: State, j: JobId, outcome: Outcome, p: Pass)
    requires Enabled(s, Reapplied(j, outcome)) && Complete(outcome, s.jobs[j].caller.payload) && s.jobs[j].pass != p
    ensures NothingNew(s, Next(s, Reapplied(j, outcome)), p)
  {
    hide SetPriorEvent, Enqueue;
    var t := Next(s, Reapplied(j, outcome));
    var r := WithCaller(s, j, Releasing(Replied(LifecycleRecovered)));
    var d := SetPriorEvent(Discharge(r, s.jobs[j].pass), s.jobs[j].pass);
    forall k | k in t.jobs && t.jobs[k].pass == p
      ensures k in s.jobs && t.jobs[k] == s.jobs[k].(done := t.jobs[k].done)
    {
      assert k != j && t.jobs[k] == d.jobs[k];
    }
  }

  lemma WorkerPassUnheld(s: State, j: JobId)
    requires EventsSound(s) && SidecarSound(s) && j in s.jobs && s.jobs[j].stage.Busy()
    ensures s.jobs[j].pass !in s.pending
    ensures s.sidecar.Readable? ==> s.jobs[j].pass !in s.sidecar.passes
  {
    assert s.jobs[j].pass !in Lives(s.pending);
  }

  /** A worker that records or clears a hold is never working on a held pass. */
  lemma OwedThroughWorker(s: State, step: Step, p: Pass, life: Lifecycle)
    requires Inv(s) && Enabled(s, step) && Owed(s, p, life) && (step.ClaimLifecycle? || step.ApplyDeferred?)
    ensures Owed(Next(s, step), p, life) && NothingNew(s, Next(s, step), p)
  {
    hide JobSound, JobsSound, QueueSound, WorkerSound, ClaimsSound, CountersSound;
    var j, t := s.worker.value, Next(s, step);
    WorkerPassUnheld(s, j);
    if step.ClaimLifecycle? { ClaimOwnHold(s); } else { ApplyOwnHold(s, step.outcome); }
    assert OwnHold(s, t, j);
    hide Next, NothingNew, EventsSound, SidecarSound;
    NothingNewOne(s, t, j, p);
    OwedFrame(s, t, p, life);
  }

  /** The worker's lifecycle sections move its own job and its own pass's hold. */
  predicate OwnHold(s: State, t: State, j: JobId)
    requires j in s.jobs
  {
    var job := s.jobs[j];
    && j in t.jobs && t.jobs == s.jobs[j := t.jobs[j]] && t.jobs[j].pass == job.pass
    && !t.jobs[j].stage.Queued? && t.jobs[j].caller == job.caller
    && (t.sidecar == s.sidecar || t.sidecar == s.sidecar.Clear(job.pass)
        || (job.lifecycle.Some? && t.sidecar == s.sidecar.Persist(job.pass, job.lifecycle.value)))
  }

  lemma ClaimOwnHold(s: State)
    requires Enabled(s, ClaimLifecycle)
    ensures OwnHold(s, ClaimLifecycleStep(s), s.worker.value)
  {
    var j, t := s.worker.value, ClaimLifecycleStep(s);
    var job := s.jobs[j];
    var moved :=
      if !job.HasOps() || !job.deferred || job.applied then job.(stage := Finishing(false))
      else if job.applying then job.(stage := Finishing(true))
      else if !job.handler then job.(applyFailed := true, stage := Finishing(true))
      else job.(applying := true, stage := Applying);
    assert t.jobs == s.jobs[j := moved];
    assert t.jobs[j] == moved;
  }

  lemma ApplyOwnHold(s: State, outcome: Outcome)
    requires Enabled(s, ApplyDeferred(outcome))
    ensures OwnHold(s, ApplyDeferredStep(s, outcome), s.worker.value)
  {
    var j, t := s.worker.value, ApplyDeferredStep(s, outcome);
    var job := s.jobs[j];
    var moved :=
      if Complete(outcome, job.lifecycle.value) then
        job.(applied := true, applying := false, stage := Finishing(false))
      else job.(applyFailed := true, applying := false, stage := Finishing(true));
    assert t.jobs == s.jobs[j := moved];
    assert t.jobs[j] == moved;
  }

  lemma OwedThroughCaller(s: State, step: Step, p: Pass, life: Lifecycle)
    requires Inv(s) && Enabled(s, step) && Owed(s, p, life)
    requires step.Release? || step.ObserveDone? || step.TimeOut?
    ensures Next(s, step).sidecar == s.sidecar && NothingNew(s, Next(s, step), p)
  {
    hide JobSound, JobsSound, QueueSound, WorkerSound, EventsSound, ClaimsSound, SidecarSound, CountersSound;
    hide NothingNew;
    if step.Release? {
      ReleaseNextRests(s, step.j);
    }
    NothingNewOne(s, Next(s, step), step.j, p);
  }

  lemma OwedThroughDrain(s: State, step: Step, p: Pass, life: Lifecycle)
    requires Inv(s) && Enabled(s, step) && Owed(s, p, life)
    requires step.TakeJob? || step.FinishWrite? || step.CountFailure? || step.FinishJob?
    ensures Next(s, step).sidecar == s.sidecar && NothingNew(s, Next(s, step), p)
  {
    hide JobSound, JobsSound, QueueSound, WorkerSound, EventsSound, ClaimsSound, SidecarSound, CountersSound;
    hide NothingNew;
    NothingNewOne(s, Next(s, step), if step.TakeJob? then s.queue[0] else s.worker.value, p);
  }

  lemma ReleaseNextRests(s: State, j: JobId)
    requires Inv(s) && Enabled(s, Release(j))
    ensures !s.jobs[j].caller.next.Reapplying?
  {
    assert CallerSound(s.jobs[j]);
  }

  lemma OwedThroughCorruption(s: State, p: Pass, life: Lifecycle)
    requires Inv(s) && Owed(s, p, life)
    ensures Owed(s.(sidecar := Unreadable), p, life)
  {
    if s.sidecar.Readable? && s != Cold(s.sidecar) {
      assert Lives(s.pending)[p] == life;
    }
  }

  /** Jobs that were queued before are not put in the queue. */
  lemma NothingNewEnqueuesNothing(s: State, step: Step, p: Pass)
    requires Enabled(s, step) && NothingNew(s, Next(s, step), p)
    ensures !Enqueues(s, step, p)
  {
    hide Next;
  }

  /** The sidecar stays as it is and nothing new comes up. */
  lemma QuietStays(s: State, step: Step, p: Pass, life: Lifecycle)
    requires Enabled(s, step) && Owed(s, p, life)
    requires Next(s, step).sidecar == s.sidecar && NothingNew(s, Next(s, step), p)
    ensures Owed(Next(s, step), p, life) && !Enqueues(s, step, p)
  {
    hide Next, Enabled, NothingNew, Enqueues;
    NothingNewEnqueuesNothing(s, step, p);
    OwedFrame(s, Next(s, step), p, life);
  }

  lemma SubmitStays(s: State, step: Step, p: Pass, life: Lifecycle)
    requires Inv(s) && Enabled(s, step) && Owed(s, p, life) && step.Submit?
    ensures Owed(Next(s, step), p, life) && !Enqueues(s, step, p)
  {
    hide Inv;
    OwedThroughSubmit(s, step.j, NewJob(step.pass, step.drafts, step.wait, step.lifecycle, step.handler), p, life);
    hide SubmitStep;
  }

  lemma SampleStays(s: State, p: Pass, life: Lifecycle)
    requires Owed(s, p, life)
    ensures Next(s, SampleStatus).sidecar == s.sidecar && NothingNew(s, Next(s, SampleStatus), p)
  {
  }

  lemma CrashStays(s: State, p: Pass, life: Lifecycle)
    requires Owed(s, p, life)
    ensures Next(s, Crash).sidecar == s.sidecar && NothingNew(s, Next(s, Crash), p)
  {
  }

  lemma CorruptionStays(s: State, p: Pass, life: Lifecycle)
    requires Inv(s) && Owed(s, p, life)
    ensures Owed(Next(s, CorruptSidecar), p, life) && NothingNew(s, Next(s, CorruptSidecar), p)
  {
    hide Inv, Owed;
    OwedThroughCorruption(s, p, life);
  }

  /** Until it is discharged, a held decision set stays recorded and no batch of its pass is queued. */
  lemma OwedStays(s: State, step: Step, p: Pass, life: Lifecycle)
    requires Inv(s) && Enabled(s, step) && Owed(s, p, life) && !Discharges(s, step, p, life)
    ensures Owed(Next(s, step), p, life) && !Enqueues(s, step, p)
  {
    hide *;
    match step {
      case Submit(_, _, _, _, _, _) => SubmitStays(s, step, p, life);
      case Reapplied(j, outcome) =>
        OwedThroughReapply(s, j, outcome, p, life);
        NothingNewEnqueuesNothing(s, step, p);
      case ClaimLifecycle | ApplyDeferred(_) =>
        OwedThroughWorker(s, step, p, life);
        NothingNewEnqueuesNothing(s, step, p);
      case CorruptSidecar =>
        CorruptionStays(s, p, life);
        NothingNewEnqueuesNothing(s, step, p);
      case SampleStatus =>
        SampleStays(s, p, life);
        QuietStays(s, step, p, life);
      case Crash =>
        CrashStays(s, p, life);
        QuietStays(s, step, p, life);
      case TakeJob | FinishWrite(_) | CountFailure | FinishJob =>
        OwedThroughDrain(s, step, p, life);
        QuietStays(s, step, p, life);
      case Release(_) | ObserveDone(_) | TimeOut(_) =>
        OwedThroughCaller(s, step, p, life);
        QuietStays(s, step, p, life);
    }
  }

  /**
   The protocol's purpose: once a decision set is held in a readable sidecar, no batch of its pass
   is queued, through any number of crashes, restarts and retries, before a re-apply of that same
   decision set returns with a report that leaves nothing of it to apply.
   */
  lemma HeldUntilDischarged(run: Run, i: nat, k: nat, p: Pass, life: Lifecycle)
    requires IsRun(run) && i <= k < |run.steps|
    requires run.states[i].sidecar.Readable? && p in run.states[i].sidecar.passes
    requires run.states[i].sidecar.passes[p] == life
    requires Enqueues(run.states[k], run.steps[k], p)
    ensures exists m :: i <= m <= k && Discharges(run.states[m], run.steps[m], p, life)
                        && NothingLeft(run.steps[m].outcome, life)
  {
    hide Next, Inv, Enqueues, Complete, NothingLeft;
    DischargedBefore(run, i, k, p, life);
    var m :| i <= m <= k && Discharges(run.states[m], run.steps[m], p, life);
    CompleteLeavesNothing(run.steps[m].outcome, life);
  }

  lemma {:induction false} DischargedBefore(run: Run, i: nat, k: nat, p: Pass, life: Lifecycle)
    requires IsRun(run) && i <= k < |run.steps|
    requires run.states[i].sidecar.Readable? && p in run.states[i].sidecar.passes
    requires run.states[i].sidecar.passes[p] == life
    requires Enqueues(run.states[k], run.steps[k], p)
    ensures exists m :: i <= m <= k && Discharges(run.states[m], run.steps[m], p, life)
  {
    hide Next, Inv, Enqueues, Complete;
    if forall m :: i <= m < k ==> !Discharges(run.states[m], run.steps[m], p, life) {
      OwedUpTo(run, i, k, p, life);
      EveryStateSound(run, k);
      if !Discharges(run.states[k], run.steps[k], p, life) {
        OwedStays(run.states[k], run.steps[k], p, life);
      }
    }
  }

  lemma {:induction false} OwedUpTo(run: Run, i: nat, k: nat, p: Pass, life: Lifecycle)
    requires IsRun(run) && i <= k < |run.steps| && Owed(run.states[i], p, life)
    requires forall m :: i <= m < k ==> !Discharges(run.states[m], run.steps[m], p, life)
    ensures Owed(run.states[k], p, life)
    decreases k - i
  {
    hide Next, Inv, Owed, Complete;
    if i < k {
      OwedUpTo(run, i, k - 1, p, life);
      EveryStateSound(run, k - 1);
      OwedStays(run.states[k - 1], run.steps[k - 1], p, life);
    }
  }

  /** Outside critical sections and once hydrated, memory and a readable sidecar name the same holds. */
  lemma MemoryMirrorsSidecar(run: Run, i: nat)
    requires IsRun(run) && i < |run.states|
    requires run.states[i].sidecar.Readable? && run.states[i].jobs != map[]
    ensures Lives(run.states[i].pending) == run.states[i].sidecar.passes
  {
    EveryStateSound(run, i);
  }

  /** A restart loses every hold from memory and the first submission restores every one of them. */
  lemma RestartRestoresHolds(s: State, j: JobId, job: Job)
    requires Inv(s) && s.sidecar.Readable?
    ensures var t := SubmitStep(Next(s, Crash), j, job);
            Lives(t.pending) == s.sidecar.passes && t.sidecar == s.sidecar
            && (job.pass in s.sidecar.passes ==> t.queue == [])
  {
    var c := Cold(s.sidecar);
    assert Lives(Hydrate(c).pending) == s.sidecar.passes;
  }

  /** A process that started on an unreadable sidecar: nothing queued, nothing held, every call refused. */
  ghost predicate Refusing(s: State) {
    && s.sidecar.Unreadable? && s.queue == [] && s.worker.None? && s.pending == map[] && s.inFlight == map[]
    && forall j :: j in s.jobs ==> s.jobs[j].caller == Replied(WriteInFlight) && s.jobs[j].stage.NotQueued?
  }

  lemma RefusingStays(s: State, step: Step)
    requires Refusing(s) && Enabled(s, step)
    ensures Refusing(Next(s, step))
  {
  }

  /** Nothing repairs the sidecar: once unreadable it is so in every later state of the run. */
  lemma {:induction false} UnreadableForGood(run: Run, i: nat, k: nat)
    requires IsRun(run) && i <= k < |run.states| && run.states[i].sidecar.Unreadable?
    ensures run.states[k].sidecar.Unreadable?
    decreases k - i
  {
    hide Next, Enabled;
    if i < k {
      UnreadableForGood(run, i, k - 1);
      UnreadableStays(run.states[k - 1], run.steps[k - 1]);
    }
  }

  lemma UnreadableStays(s: State, step: Step)
    requires Enabled(s, step) && s.sidecar.Unreadable?
    ensures Next(s, step).sidecar.Unreadable?
  {
    hide EventUnset;
  }

  /** ... and from the first restart on every submission is refused and no batch is ever queued. */
  lemma {:induction false} RestartOnUnreadableRefusesAll(run: Run, i: nat, k: nat)
    requires IsRun(run) && i < k < |run.states| && run.states[i].sidecar.Unreadable? && run.steps[i].Crash?
    ensures Refusing(run.states[k])
    decreases k - i
  {
    hide Enabled, Refusing;
    assert run.states[i + 1] == Next(run.states[i], run.steps[i]);
    if k == i + 1 {
      ColdRefuses();
    } else {
      hide Next;
      RestartOnUnreadableRefusesAll(run, i, k - 1);
      RefusingStays(run.states[k - 1], run.steps[k - 1]);
    }
  }

  lemma ColdRefuses()
    ensures Refusing(Cold(Unreadable))
  {
  }

  // ----------------------------------------------------------------- who owns what

  /** The waiter's caller gets the landed batch, or the worker takes its lifecycle. */
  predicate CallerOwns(job: Job) {
    job.caller == Replied(Result)
  }

  predicate WorkerOwns(job: Job) {
    job.applied || job.applyFailed
  }

  predicate Over(job: Job) {
    job.stage.Finished? && job.caller.Replied?
  }

  /**
   When a landed batch with a decision set is over, exactly one party owns the decision set if and
   only if somebody waited; a batch submitted without waiting leaves it to nobody.
   */
  lemma LandedOutcomeHasOneOwner(run: Run, i: nat, j: JobId)
    requires IsRun(run) && i < |run.states| && j in run.states[i].jobs
    requires var job := run.states[i].jobs[j]; Over(job) && job.out.Landed? && job.HasOps()
    ensures var job := run.states[i].jobs[j];
            ((CallerOwns(job) <==> !WorkerOwns(job)) <==> job.wait)
            && (!job.wait ==> !CallerOwns(job) && !WorkerOwns(job))
  {
    hide IsRun, QueueSound, WorkerSound, EventsSound, ClaimsSound, SidecarSound, CountersSound;
    EveryStateSound(run, i);
    JobOf(run.states[i], j);
  }

  /** A failed batch is raised to its waiter or counted as unrecovered, under the same condition. */
  lemma FailedOutcomeHasOneWitness(run: Run, i: nat, j: JobId)
    requires IsRun(run) && i < |run.states| && j in run.states[i].jobs
    requires var job := run.states[i].jobs[j]; Over(job) && job.out.Failed?
    ensures var job := run.states[i].jobs[j];
            ((job.caller == Replied(WriteError) <==> !job.unrecovered) <==> job.wait)
            && (!job.wait ==> job.caller != Replied(WriteError) && !job.unrecovered)
  {
    hide IsRun, QueueSound, WorkerSound, EventsSound, ClaimsSound, SidecarSound, CountersSound;
    EveryStateSound(run, i);
    JobOf(run.states[i], j);
  }

  /** The process-wide counters are exact, and no waiter ever finds its event set with nothing behind it. */
  lemma CountersAreExact(run: Run, i: nat)
    requires IsRun(run) && i < |run.states|
    ensures var s := run.states[i];
            s.counters.unrecovered == |Unrecovered(s.jobs)| && s.counters.timeouts == |TimedOut(s.jobs)|
    ensures forall j :: j in run.states[i].jobs ==> run.states[i].jobs[j].caller != Replied(MissingResult)
  {
    EveryStateSound(run, i);
    forall j | j in run.states[i].jobs
      ensures run.states[i].jobs[j].caller != Replied(MissingResult)
    {
      assert JobSound(run.states[i].jobs[j]);
    }
  }
}
