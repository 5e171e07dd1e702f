/** The inductive invariant of the draft queue, kept by every step. */
module DraftQueueInvariant {
  import opened Prelude
  import opened DraftQueue

  // ------------------------------------------------------------------ one job

  /** Each flag of a job is a function of where its worker and its caller are. */
  predicate EventSound(job: Job) {
    && (job.out.Unset? <==> job.stage.NotQueued? || job.stage.Queued? || job.stage.Writing?)
    && (job.stage.Written? || job.stage.Applying? ==> job.out.Landed?)
    && (job.stage.WriteFailed? ==> job.out.Failed?)
    && (job.done ==> job.stage == Finishing(true) || job.stage.Finished?)
  }

  predicate CallerSound(job: Job) {
    && (job.timedOut <==> job.caller == Replied(WriteTimeout))
    && (job.deferred <==> job.timedOut && job.lifecycle.Some?)
    && (job.caller == Replied(Result) ==> job.out.Landed?)
    && (job.caller == Replied(WriteError) ==> job.out.Failed?)
    && job.caller != Replied(MissingResult)
    && (job.caller.Releasing? ==>
          job.caller.next.Waiting? || (job.caller.next.Replied? && (job.caller.Refused() || job.caller.Unwaited())))
    && (job.stage.NotQueued? <==> job.caller.Refused())
    && (!job.stage.NotQueued? ==> (job.caller.Unwaited() <==> !job.wait))
  }

  predicate LifecycleSound(job: Job) {
    && (job.applying <==> job.stage.Applying?)
    && (job.stage.Applying? ==> job.deferred && job.HasOps())
    && !(job.applied && job.applyFailed)
    && (job.applied || job.applyFailed <==>
          job.out.Landed? && job.deferred && job.HasOps() && (job.stage.Finishing? || job.stage.Finished?))
    && (job.stage.Finishing? ==> (job.stage.hold <==> job.applyFailed))
    && (job.unrecovered <==> job.out.Failed? && job.timedOut && (job.stage.Finishing? || job.stage.Finished?))
  }

  predicate JobSound(job: Job) {
    EventSound(job) && CallerSound(job) && LifecycleSound(job)
  }

  ghost predicate JobsSound(s: State) {
    forall j :: j in s.jobs ==> JobSound(s.jobs[j])
  }

  // ------------------------------------------------------------ shared tables

  ghost predicate QueueSound(s: State) {
    && (forall i, k :: 0 <= i < k < |s.queue| ==> s.queue[i] != s.queue[k])
    && (forall j :: j in s.queue <==> j in s.jobs && s.jobs[j].stage.Queued?)
  }

  ghost predicate WorkerSound(s: State) {
    && (s.worker.Some? ==> s.worker.value in s.jobs)
    && (forall j :: j in s.jobs ==> (s.jobs[j].stage.OnWorker() <==> s.worker == Some(j)))
  }

  ghost predicate EventsSound(s: State) {
    && (forall p :: p in s.inFlight ==>
          s.inFlight[p] in s.jobs && s.jobs[s.inFlight[p]].pass == p && !s.jobs[s.inFlight[p]].stage.NotQueued?)
    && (forall j :: j in s.jobs && s.jobs[j].stage.Busy() ==>
          s.jobs[j].pass in s.inFlight && s.inFlight[s.jobs[j].pass] == j && s.jobs[j].pass !in s.pending)
    && (forall p :: p in s.inFlight ==>
          s.jobs[s.inFlight[p]].done || s.jobs[s.inFlight[p]].stage.Busy() || p in s.pending)
  }

  predicate ClaimsPass(jobs: map<JobId, Job>, j: JobId, p: Pass) {
    j in jobs && jobs[j].pass == p && jobs[j].caller.Claims()
  }

  /** A claimed pass has exactly one claimant, and a re-applying claimant holds the held decision set. */
  ghost predicate ClaimsSound(s: State) {
    && (forall j, p :: ClaimsPass(s.jobs, j, p) ==> p in s.reapplying)
    && (forall j, k, p :: ClaimsPass(s.jobs, j, p) && ClaimsPass(s.jobs, k, p) ==> j == k)
    && (forall p :: p in s.reapplying ==> exists j :: ClaimsPass(s.jobs, j, p))
    && (forall j :: j in s.jobs && s.jobs[j].caller.Reapplying? ==>
          s.jobs[j].pass in s.pending && s.pending[s.jobs[j].pass].life == s.jobs[j].caller.payload)
  }

  /** A readable sidecar mirrors memory, except before the first hydration of a fresh process. */
  predicate SidecarSound(s: State) {
    s.sidecar.Readable? ==> Lives(s.pending) == s.sidecar.passes || s == Cold(s.sidecar)
  }

  ghost function Unrecovered(jobs: map<JobId, Job>): set<JobId> {
    set j | j in jobs && jobs[j].unrecovered
  }

  ghost function TimedOut(jobs: map<JobId, Job>): set<JobId> {
    set j | j in jobs && jobs[j].timedOut
  }

  /** The counters say how many jobs ended each way, no more and no less. */
  ghost predicate CountersSound(s: State) {
    && s.counters.unrecovered == |Unrecovered(s.jobs)|
    && s.counters.timeouts == |TimedOut(s.jobs)|
  }

  ghost predicate Inv(s: State) {
    && JobsSound(s) && QueueSound(s) && WorkerSound(s) && EventsSound(s)
    && ClaimsSound(s) && SidecarSound(s) && CountersSound(s)
  }

  // ------------------------------------------------------------------- frames

  /** `t` differs from `s` on the job `j` only, as far as jobs go. */
  predicate Touches(s: State, t: State, j: JobId) {
    && j in s.jobs && j in t.jobs && t.jobs == s.jobs[j := t.jobs[j]]
    && t.jobs[j].pass == s.jobs[j].pass
  }

  /** What a caller does to its own job keeps it sound, whatever the rest of the state is. */
  lemma CallerMoves(job: Job)
    requires JobSound(job)
    ensures job.caller.Releasing? ==> JobSound(job.(caller := job.caller.next))
    ensures job.caller.Reapplying? ==>
              JobSound(job.(caller := Releasing(Replied(WriteInFlight))))
              && JobSound(job.(caller := Releasing(Replied(LifecycleRecovered))))
    ensures job.caller.Waiting? && !job.out.Unset? ==> JobSound(job.(caller := Replied(OutReply(job.out))))
    ensures job.caller.Waiting? && job.out.Unset? ==>
              JobSound(job.(timedOut := true, deferred := job.deferred || job.lifecycle.Some?,
                            caller := Replied(WriteTimeout)))
    ensures !job.stage.NotQueued? && !job.stage.Busy() ==> JobSound(job.(done := true))
  {
  }

  /** What the worker does to a job keeps it sound, whatever the rest of the state is. */
  lemma JobMoves(job: Job)
    requires JobSound(job)
    ensures job.stage.Queued? ==> JobSound(job.(stage := Writing))
    ensures job.stage.Writing? ==>
              JobSound(job.(out := Landed, stage := Written)) && JobSound(job.(out := Failed, stage := WriteFailed))
    ensures job.stage.WriteFailed? ==>
              JobSound(job.(unrecovered := job.timedOut || job.deferred, stage := Finishing(false)))
    ensures job.stage.Written? && (!job.HasOps() || !job.deferred || job.applied) ==>
              JobSound(job.(stage := Finishing(false)))
    ensures job.stage.Written? && job.HasOps() && job.deferred && !job.applied ==>
              JobSound(job.(applyFailed := true, stage := Finishing(true)))
              && JobSound(job.(applying := true, stage := Applying))
    ensures job.stage.Applying? ==>
              JobSound(job.(applied := true, applying := false, stage := Finishing(false)))
              && JobSound(job.(applyFailed := true, applying := false, stage := Finishing(true)))
    ensures job.stage.Finishing? ==> JobSound(job.(done := job.done || !job.stage.hold, stage := Finished))
  {
  }

  lemma JobsFrame(s: State, t: State, j: JobId)
    requires JobsSound(s) && t.jobs.Keys == s.jobs.Keys + {j} && t.jobs == s.jobs[j := t.jobs[j]]
    requires JobSound(t.jobs[j])
    ensures JobsSound(t)
  {
  }

  lemma QueueFrame(s: State, t: State, j: JobId)
    requires QueueSound(s) && Touches(s, t, j)
    requires t.queue == s.queue && t.jobs[j].stage.Queued? == s.jobs[j].stage.Queued?
    ensures QueueSound(t)
  {
  }

  lemma WorkerFrame(s: State, t: State, j: JobId)
    requires WorkerSound(s) && Touches(s, t, j)
    requires t.worker == s.worker && t.jobs[j].stage.OnWorker() == s.jobs[j].stage.OnWorker()
    ensures WorkerSound(t)
  {
  }

  lemma EventsFrame(s: State, t: State, j: JobId)
    requires EventsSound(s) && Touches(s, t, j)
    requires t.inFlight == s.inFlight
    requires t.jobs[j].stage.NotQueued? == s.jobs[j].stage.NotQueued?
    requires t.jobs[j].stage.Busy() ==> s.jobs[j].stage.Busy()
    requires s.jobs[j].done || s.jobs[j].stage.Busy() ==>
               t.jobs[j].done || t.jobs[j].stage.Busy() || t.jobs[j].pass in t.pending
    requires forall p :: p in s.pending ==> p in t.pending
    requires forall p | p in t.pending && p !in s.pending ::
               p == t.jobs[j].pass && !t.jobs[j].stage.Busy() && s.jobs[j].stage.Busy()
    ensures EventsSound(t)
  {
  }

  lemma ClaimsFrame(s: State, t: State, j: JobId)
    requires ClaimsSound(s) && Touches(s, t, j)
    requires t.reapplying == s.reapplying
    requires t.jobs[j].caller.Claims() == s.jobs[j].caller.Claims()
    requires t.jobs[j].caller.Reapplying? ==> t.jobs[j].caller == s.jobs[j].caller
    requires forall p :: p in s.pending ==> p in t.pending && t.pending[p].life == s.pending[p].life
    ensures ClaimsSound(t)
  {
    assert forall k, p :: ClaimsPass(t.jobs, k, p) <==> ClaimsPass(s.jobs, k, p);
    forall p | p in t.reapplying
      ensures exists k :: ClaimsPass(t.jobs, k, p)
    {
      var k :| ClaimsPass(s.jobs, k, p);
      assert ClaimsPass(t.jobs, k, p);
    }
  }

  /** The two durable updates keep the mirror exact. */
  lemma SidecarHeld(s: State, t: State, p: Pass, sticky: Sticky)
    requires SidecarSound(s) && s.jobs != map[]
    requires t.pending == s.pending[p := sticky] && t.sidecar == s.sidecar.Persist(p, sticky.life)
    ensures SidecarSound(t)
  {
    if s.sidecar.Readable? {
      assert Lives(t.pending) == Lives(s.pending)[p := sticky.life];
    }
  }

  lemma SidecarDischarged(s: State, t: State, p: Pass)
    requires SidecarSound(s) && s.jobs != map[]
    requires t.pending == s.pending - {p} && t.sidecar == s.sidecar.Clear(p)
    ensures SidecarSound(t)
  {
    if s.sidecar.Readable? {
      assert Lives(t.pending) == Lives(s.pending) - {p};
    }
  }

  /** Clearing a pass that is not held changes neither memory nor the mirror. */
  lemma DischargeUnheld(s: State, p: Pass)
    requires SidecarSound(s) && s.jobs != map[] && p !in s.pending
    ensures Discharge(s, p) == s
  {
    assert s.pending - {p} == s.pending;
    if s.sidecar.Readable? {
      assert p !in Lives(s.pending);
      assert s.sidecar.passes - {p} == s.sidecar.passes;
    }
  }

  /** Replacing one job moves it in or out of the counted sets as its new flags say. */
  lemma CountOne(jobs: map<JobId, Job>, j: JobId, job: Job)
    ensures TimedOut(jobs[j := job]) == TimedOut(jobs) - {j} + (if job.timedOut then {j} else {})
    ensures Unrecovered(jobs[j := job]) == Unrecovered(jobs) - {j} + (if job.unrecovered then {j} else {})
  {
  }

  lemma RaiseFlag(flagged: set<JobId>, j: JobId, raised: bool)
    requires j in flagged ==> raised
    ensures |flagged - {j} + (if raised then {j} else {})| == |flagged| + (if raised && j !in flagged then 1 else 0)
  {
    if j in flagged {
      assert flagged - {j} + {j} == flagged;
    } else {
      assert flagged - {j} == flagged;
    }
  }

  /** A step that touches one job moves each counter by the flag it raises. */
  lemma CountersFrame(s: State, t: State, j: JobId)
    requires CountersSound(s) && j in s.jobs && j in t.jobs && t.jobs == s.jobs[j := t.jobs[j]]
    requires s.jobs[j].timedOut ==> t.jobs[j].timedOut
    requires s.jobs[j].unrecovered ==> t.jobs[j].unrecovered
    requires t.counters.timeouts
             == s.counters.timeouts + (if t.jobs[j].timedOut && !s.jobs[j].timedOut then 1 else 0)
    requires t.counters.unrecovered
             == s.counters.unrecovered + (if t.jobs[j].unrecovered && !s.jobs[j].unrecovered then 1 else 0)
    ensures CountersSound(t)
  {
    CountOne(s.jobs, j, t.jobs[j]);
    RaiseFlag(TimedOut(s.jobs), j, t.jobs[j].timedOut);
    RaiseFlag(Unrecovered(s.jobs), j, t.jobs[j].unrecovered);
  }

  /** Adding a job that is neither timed out nor unrecovered. */
  lemma CountersFresh(s: State, t: State, j: JobId)
    requires CountersSound(s) && j !in s.jobs && j in t.jobs && t.jobs == s.jobs[j := t.jobs[j]]
    requires !t.jobs[j].timedOut && !t.jobs[j].unrecovered
    requires t.counters.timeouts == s.counters.timeouts && t.counters.unrecovered == s.counters.unrecovered
    ensures CountersSound(t)
  {
    CountOne(s.jobs, j, t.jobs[j]);
    assert j !in TimedOut(s.jobs) && j !in Unrecovered(s.jobs);
    hide TimedOut, Unrecovered;
    RaiseFlag(TimedOut(s.jobs), j, false);
    RaiseFlag(Unrecovered(s.jobs), j, false);
  }

  // What single facts of the invariant say about one job.

  lemma JobOf(s: State, j: JobId)
    requires JobsSound(s) && j in s.jobs
    ensures JobSound(s.jobs[j])
  {
  }

  lemma OnWorkerOf(s: State, j: JobId)
    requires WorkerSound(s) && s.worker == Some(j)
    ensures j in s.jobs && s.jobs[j].stage.OnWorker()
  {
  }

  lemma BusyIsUnheld(s: State, j: JobId)
    requires EventsSound(s) && j in s.jobs && s.jobs[j].stage.Busy()
    ensures s.jobs[j].pass !in s.pending
  {
  }

  lemma HeldEventIsIdle(s: State, p: Pass)
    requires EventsSound(s) && p in s.pending && p in s.inFlight
    ensures s.inFlight[p] in s.jobs && s.jobs[s.inFlight[p]].pass == p
    ensures !s.jobs[s.inFlight[p]].stage.Busy() && !s.jobs[s.inFlight[p]].stage.NotQueued?
  {
  }

  lemma HeadIsQueued(s: State)
    requires QueueSound(s) && s.queue != []
    ensures s.queue[0] in s.jobs && s.jobs[s.queue[0]].stage.Queued?
  {
    assert s.queue[0] in s.queue;
  }

  lemma ReleaseRests(job: Job)
    requires JobSound(job) && job.caller.Releasing?
    ensures !job.caller.next.Claims()
  {
  }

  lemma WrittenIsNotApplying(job: Job)
    requires JobSound(job)
    ensures job.stage.Written? ==> !job.applying
    ensures job.stage.WriteFailed? ==> !job.unrecovered
    ensures job.caller.Waiting? ==> !job.timedOut
  {
  }

  /** A claimant holds its pass's decision set, and its own job was never queued. */
  lemma ClaimantOf(s: State, j: JobId)
    requires JobsSound(s) && ClaimsSound(s) && EventsSound(s) && j in s.jobs && s.jobs[j].caller.Reapplying?
    ensures JobSound(s.jobs[j]) && s.jobs[j].stage.NotQueued?
    ensures s.jobs[j].pass in s.pending && s.pending[s.jobs[j].pass].life == s.jobs[j].caller.payload
    ensures forall q :: q in s.inFlight ==> s.inFlight[q] != j
  {
    assert JobSound(s.jobs[j]);
  }

  /** Neither memory's holds nor the sidecar moved. */
  lemma SidecarSame(s: State, t: State)
    requires SidecarSound(s) && s.jobs != map[] && t.pending == s.pending && t.sidecar == s.sidecar
    ensures SidecarSound(t)
  {
  }

  lemma TablesSame(s: State, t: State)
    requires JobsSound(s) && QueueSound(s) && WorkerSound(s)
    requires t.jobs == s.jobs && t.queue == s.queue && t.worker == s.worker
    ensures JobsSound(t) && QueueSound(t) && WorkerSound(t)
  {
  }

  lemma EventsSame(s: State, t: State)
    requires EventsSound(s) && t.jobs == s.jobs && t.inFlight == s.inFlight && t.pending == s.pending
    ensures EventsSound(t)
  {
  }

  lemma ClaimsSame(s: State, t: State)
    requires ClaimsSound(s) && t.jobs == s.jobs && t.reapplying == s.reapplying && t.pending == s.pending
    ensures ClaimsSound(t)
  {
  }

  lemma CountersSame(s: State, t: State)
    requires CountersSound(s) && t.jobs == s.jobs
    requires t.counters.timeouts == s.counters.timeouts && t.counters.unrecovered == s.counters.unrecovered
    ensures CountersSound(t)
  {
  }

  /** Everything a step keeps when it moves one job without touching the shared tables. */
  lemma QuietFrame(s: State, t: State, j: JobId)
    requires Inv(s) && Touches(s, t, j) && JobSound(t.jobs[j])
    requires t.queue == s.queue && t.worker == s.worker && t.inFlight == s.inFlight
    requires t.pending == s.pending && t.reapplying == s.reapplying && t.sidecar == s.sidecar
    requires t.jobs[j].stage.Queued? == s.jobs[j].stage.Queued?
    requires t.jobs[j].stage.NotQueued? == s.jobs[j].stage.NotQueued?
    requires t.jobs[j].stage.OnWorker() == s.jobs[j].stage.OnWorker()
    requires t.jobs[j].stage.Busy() == s.jobs[j].stage.Busy()
    requires t.jobs[j].done == s.jobs[j].done
    requires t.jobs[j].caller.Claims() == s.jobs[j].caller.Claims()
    requires t.jobs[j].caller.Reapplying? ==> t.jobs[j].caller == s.jobs[j].caller
    ensures JobsSound(t) && QueueSound(t) && WorkerSound(t) && EventsSound(t) && ClaimsSound(t) && SidecarSound(t)
  {
    hide JobSound, JobsSound, QueueSound, WorkerSound, EventsSound, ClaimsSound, SidecarSound, CountersSound;
    SidecarSame(s, t);
    JobsFrame(s, t, j);
    QueueFrame(s, t, j);
    WorkerFrame(s, t, j);
    EventsFrame(s, t, j);
    ClaimsFrame(s, t, j);
  }

  lemma ColdIsInv(sidecar: Sidecar)
    ensures Inv(Cold(sidecar))
  {
    assert Unrecovered(map[]) == {} && TimedOut(map[]) == {};
  }

  lemma HydrateKeeps(s: State)
    requires Inv(s) && s.sidecar.Readable?
    ensures Inv(Hydrate(s)) && Lives(Hydrate(s).pending) == s.sidecar.passes
    ensures s != Cold(s.sidecar) ==> Hydrate(s) == s
  {
    var h := Hydrate(s);
    if s == Cold(s.sidecar) {
      assert Lives(h.pending) == s.sidecar.passes;
      assert Unrecovered(map[]) == {} && TimedOut(map[]) == {};
    } else {
      assert s.pending.Keys == Lives(s.pending).Keys;
      assert h.pending == s.pending;
    }
  }

  // ------------------------------------------------------------ single-job steps

  lemma ReleaseKeepsClaims(s: State, t: State, j: JobId)
    requires ClaimsSound(s) && j in s.jobs && ClaimsPass(s.jobs, j, s.jobs[j].pass)
    requires j in t.jobs && t.jobs == s.jobs[j := t.jobs[j]]
    requires t.jobs[j].pass == s.jobs[j].pass && !t.jobs[j].caller.Claims()
    requires t.reapplying == s.reapplying - {s.jobs[j].pass} && t.pending == s.pending
    ensures ClaimsSound(t)
  {
    assert forall k, p :: ClaimsPass(t.jobs, k, p) <==> ClaimsPass(s.jobs, k, p) && k != j;
    forall p | p in t.reapplying
      ensures exists k :: ClaimsPass(t.jobs, k, p)
    {
      var k :| ClaimsPass(s.jobs, k, p);
      assert ClaimsPass(t.jobs, k, p);
    }
  }

  lemma ReleaseKeeps(s: State, j: JobId)
    requires Inv(s) && Enabled(s, Release(j))
    ensures Inv(Next(s, Release(j)))
  {
    hide JobSound, JobsSound, QueueSound, WorkerSound, EventsSound, ClaimsSound, SidecarSound, CountersSound;
    var t := Next(s, Release(j));
    JobOf(s, j);
    CallerMoves(s.jobs[j]);
    ReleaseRests(s.jobs[j]);
    SidecarSame(s, t);
    CountersFrame(s, t, j);
    JobsFrame(s, t, j);
    QueueFrame(s, t, j);
    WorkerFrame(s, t, j);
    EventsFrame(s, t, j);
    ReleaseKeepsClaims(s, t, j);
  }

  lemma WaiterHasOutcome(job: Job)
    requires JobSound(job) && job.done
    ensures !job.out.Unset?
  {
  }

  lemma ObserveDoneKeeps(s: State, j: JobId)
    requires Inv(s) && Enabled(s, ObserveDone(j))
    ensures Inv(Next(s, ObserveDone(j)))
  {
    hide JobSound, JobsSound, QueueSound, WorkerSound, EventsSound, ClaimsSound, SidecarSound, CountersSound;
    var t := Next(s, ObserveDone(j));
    JobOf(s, j);
    WaiterHasOutcome(s.jobs[j]);
    CallerMoves(s.jobs[j]);
    CountersFrame(s, t, j);
    QuietFrame(s, t, j);
  }

  lemma TimeOutKeeps(s: State, j: JobId)
    requires Inv(s) && Enabled(s, TimeOut(j))
    ensures Inv(Next(s, TimeOut(j)))
  {
    hide JobSound, JobsSound, QueueSound, WorkerSound, EventsSound, ClaimsSound, SidecarSound, CountersSound;
    var t := Next(s, TimeOut(j));
    JobOf(s, j);
    CallerMoves(s.jobs[j]);
    WrittenIsNotApplying(s.jobs[j]);
    CountersFrame(s, t, j);
    QuietFrame(s, t, j);
  }

  // --------------------------------------------------------------- worker steps

  lemma TakeJobKeepsQueue(s: State)
    requires QueueSound(s) && Enabled(s, TakeJob)
    ensures QueueSound(Next(s, TakeJob))
  {
    var j, t := s.queue[0], Next(s, TakeJob);
    forall k
      ensures k in t.queue <==> k in t.jobs && t.jobs[k].stage.Queued?
    {
      assert k in s.queue <==> k == j || k in t.queue;
    }
  }

  lemma TakeJobKeepsWorker(s: State)
    requires WorkerSound(s) && QueueSound(s) && Enabled(s, TakeJob)
    ensures WorkerSound(Next(s, TakeJob))
  {
    assert s.queue[0] in s.queue;
  }

  lemma TakeJobKeeps(s: State)
    requires Inv(s) && Enabled(s, TakeJob)
    ensures Inv(Next(s, TakeJob))
  {
    hide JobSound, JobsSound, QueueSound, WorkerSound, EventsSound, ClaimsSound, SidecarSound, CountersSound;
    var j, t := s.queue[0], Next(s, TakeJob);
    HeadIsQueued(s);
    JobOf(s, j);
    JobMoves(s.jobs[j]);
    TakeJobKeepsWorker(s);
    TakeJobKeepsQueue(s);
    SidecarSame(s, t);
    CountersFrame(s, t, j);
    JobsFrame(s, t, j);
    EventsFrame(s, t, j);
    ClaimsFrame(s, t, j);
  }

  lemma FinishWriteKeeps(s: State, landed: bool)
    requires Inv(s) && Enabled(s, FinishWrite(landed))
    ensures Inv(Next(s, FinishWrite(landed)))
  {
    hide JobSound, JobsSound, QueueSound, WorkerSound, EventsSound, ClaimsSound, SidecarSound, CountersSound;
    var j, t := s.worker.value, Next(s, FinishWrite(landed));
    JobOf(s, j);
    JobMoves(s.jobs[j]);
    CountersFrame(s, t, j);
    QuietFrame(s, t, j);
  }

  lemma CountFailureKeeps(s: State)
    requires Inv(s) && Enabled(s, CountFailure)
    ensures Inv(Next(s, CountFailure))
  {
    hide JobSound, JobsSound, QueueSound, WorkerSound, EventsSound, ClaimsSound, SidecarSound, CountersSound;
    var j, t := s.worker.value, Next(s, CountFailure);
    JobOf(s, j);
    JobMoves(s.jobs[j]);
    WrittenIsNotApplying(s.jobs[j]);
    CountersFrame(s, t, j);
    QuietFrame(s, t, j);
  }

  /** Recording a held decision set: the pass stops being busy as it becomes held. */
  lemma HoldKeeps(s: State, t: State, j: JobId, sticky: Sticky)
    requires Inv(s) && s.worker == Some(j) && s.jobs[j].stage.Busy()
    requires Touches(s, t, j) && JobSound(t.jobs[j])
    requires t.jobs[j].stage == Finishing(true) && t.jobs[j].caller == s.jobs[j].caller
    requires t.jobs[j].unrecovered == s.jobs[j].unrecovered && t.jobs[j].timedOut == s.jobs[j].timedOut
    requires t.queue == s.queue && t.worker == s.worker && t.inFlight == s.inFlight && t.reapplying == s.reapplying
    requires t.pending == s.pending[s.jobs[j].pass := sticky]
    requires t.sidecar == s.sidecar.Persist(s.jobs[j].pass, sticky.life)
    requires t.counters == s.counters.(applyFailures := s.counters.applyFailures + 1)
    ensures Inv(t)
  {
    hide JobSound, JobsSound, QueueSound, WorkerSound, EventsSound, ClaimsSound, SidecarSound, CountersSound;
    OnWorkerOf(s, j);
    BusyIsUnheld(s, j);
    SidecarHeld(s, t, s.jobs[j].pass, sticky);
    CountersFrame(s, t, j);
    JobsFrame(s, t, j);
    QueueFrame(s, t, j);
    WorkerFrame(s, t, j);
    EventsFrame(s, t, j);
    ClaimsFrame(s, t, j);
  }

  lemma ClaimLifecycleKeeps(s: State)
    requires Inv(s) && Enabled(s, ClaimLifecycle)
    ensures Inv(Next(s, ClaimLifecycle))
  {
    hide JobSound, JobsSound, QueueSound, WorkerSound, EventsSound, ClaimsSound, SidecarSound, CountersSound;
    var j, t := s.worker.value, Next(s, ClaimLifecycle);
    JobOf(s, j);
    JobMoves(s.jobs[j]);
    WrittenIsNotApplying(s.jobs[j]);
    if t.jobs[j].stage == Finishing(true) {
      HoldKeeps(s, t, j, Sticky(s.jobs[j].lifecycle.value, false));
    } else {
      CountersFrame(s, t, j);
      QuietFrame(s, t, j);
    }
  }

  lemma ApplyDeferredKeeps(s: State, outcome: Outcome)
    requires Inv(s) && Enabled(s, ApplyDeferred(outcome))
    ensures Inv(Next(s, ApplyDeferred(outcome)))
  {
    hide JobSound, JobsSound, QueueSound, WorkerSound, EventsSound, ClaimsSound, SidecarSound, CountersSound;
    var j, t := s.worker.value, Next(s, ApplyDeferred(outcome));
    var job := s.jobs[j];
    JobOf(s, j);
    JobMoves(job);
    if Complete(outcome, job.lifecycle.value) {
      BusyIsUnheld(s, j);
      DischargeUnheld(s, job.pass);
      CountersFrame(s, t, j);
      QuietFrame(s, t, j);
    } else {
      HoldKeeps(s, t, j, Sticky(job.lifecycle.value, true));
    }
  }

  lemma FinishJobKeepsWorker(s: State)
    requires WorkerSound(s) && Enabled(s, FinishJob)
    ensures WorkerSound(Next(s, FinishJob))
  {
  }

  lemma FinishJobKeeps(s: State)
    requires Inv(s) && Enabled(s, FinishJob)
    ensures Inv(Next(s, FinishJob))
  {
    hide JobSound, JobsSound, QueueSound, WorkerSound, EventsSound, ClaimsSound, SidecarSound, CountersSound;
    var j, t := s.worker.value, Next(s, FinishJob);
    JobOf(s, j);
    JobMoves(s.jobs[j]);
    SidecarSame(s, t);
    FinishJobKeepsWorker(s);
    CountersFrame(s, t, j);
    JobsFrame(s, t, j);
    QueueFrame(s, t, j);
    EventsFrame(s, t, j);
    ClaimsFrame(s, t, j);
  }

  // ------------------------------------------------------------------ enqueueing

  lemma EnqueueQueue(s: State, e: State, j: JobId, job: Job)
    requires QueueSound(s) && e.jobs == s.jobs[j := job] && j !in s.queue
    requires if job.stage.Queued? then e.queue == s.queue + [j] else e.queue == s.queue
    ensures QueueSound(e)
  {
    forall k
      ensures k in e.queue <==> k in e.jobs && e.jobs[k].stage.Queued?
    {
      assert k in e.queue <==> k in s.queue || (k == j && job.stage.Queued?);
    }
  }

  lemma EnqueueWorker(s: State, e: State, j: JobId, job: Job)
    requires WorkerSound(s) && e.jobs == s.jobs[j := job] && e.worker == s.worker && s.worker != Some(j)
    requires !job.stage.OnWorker()
    ensures WorkerSound(e)
  {
  }

  lemma EnqueueEvents(s: State, e: State, j: JobId, job: Job)
    requires EventsSound(s) && e.jobs == s.jobs[j := job] && e.pending == s.pending
    requires forall q :: q in s.inFlight ==> s.inFlight[q] != j
    requires forall k :: k in s.jobs && s.jobs[k].stage.Busy() ==> s.jobs[k].pass != job.pass || !job.stage.Queued?
    requires job.stage.Queued? ==> job.pass !in s.pending
    requires if job.stage.Queued? then e.inFlight == s.inFlight[job.pass := j]
             else job.stage.NotQueued? && e.inFlight == s.inFlight
    ensures EventsSound(e)
  {
  }

  lemma OfferedSound(s: State, job: Job, claimed: bool)
    requires JobSound(job) && job.stage.NotQueued?
    ensures JobSound(Offered(s, job, claimed))
  {
  }

  /** An unset event and a busy job are the same thing for a pass that is not held. */
  lemma IdlePass(s: State, p: Pass)
    requires JobsSound(s) && EventsSound(s) && !EventUnset(s, p)
    ensures forall k :: k in s.jobs && s.jobs[k].stage.Busy() ==> s.jobs[k].pass != p
  {
    forall k | k in s.jobs && s.jobs[k].stage.Busy()
      ensures s.jobs[k].pass != p
    {
      assert EventSound(s.jobs[k]);
    }
  }

  // ------------------------------------------------------------------ submission

  lemma ClaimsFresh(s: State, t: State, j: JobId, job: Job)
    requires ClaimsSound(s) && j !in s.jobs && t.jobs == s.jobs[j := job] && t.pending == s.pending
    requires if job.caller.Claims()
             then job.caller.Reapplying? && job.pass in s.pending && s.pending[job.pass].life == job.caller.payload
                  && job.pass !in s.reapplying && t.reapplying == s.reapplying + {job.pass}
             else t.reapplying == s.reapplying
    ensures ClaimsSound(t)
  {
    assert forall k, p ::
        ClaimsPass(t.jobs, k, p) <==> ClaimsPass(s.jobs, k, p) || (k == j && ClaimsPass(t.jobs, j, p));
    forall p | p in t.reapplying
      ensures exists k :: ClaimsPass(t.jobs, k, p)
    {
      if p in s.reapplying {
        var k :| ClaimsPass(s.jobs, k, p);
        assert ClaimsPass(t.jobs, k, p);
      } else {
        assert ClaimsPass(t.jobs, j, p);
      }
    }
  }

  /** A call whose job is refused, dropped, queued or made the re-apply claimant. */
  lemma EnterKeeps(s: State, t: State, j: JobId, job: Job)
    requires Inv(s) && j !in s.jobs && JobSound(job) && t.jobs == s.jobs[j := job]
    requires job.stage.NotQueued? || job.stage.Queued?
    requires !job.timedOut && !job.unrecovered && SidecarSound(t)
    requires t.worker == s.worker && t.pending == s.pending
    requires t.counters.timeouts == s.counters.timeouts && t.counters.unrecovered == s.counters.unrecovered
    requires if job.stage.Queued? then t.queue == s.queue + [j] && t.inFlight == s.inFlight[job.pass := j]
             else t.queue == s.queue && t.inFlight == s.inFlight
    requires job.stage.Queued? ==> job.pass !in s.pending && !EventUnset(s, job.pass)
    requires ClaimsSound(t)
    ensures Inv(t)
  {
    if job.stage.Queued? {
      IdlePass(s, job.pass);
    }
    assert forall q :: q in s.inFlight ==> s.inFlight[q] != j;
    assert s.worker != Some(j) && j !in s.queue;
    assert t.jobs[j] == job;
    hide JobSound, JobsSound, QueueSound, WorkerSound, EventsSound, ClaimsSound, SidecarSound, CountersSound;
    JobsFrame(s, t, j);
    EnqueueQueue(s, t, j, job);
    EnqueueWorker(s, t, j, job);
    EnqueueEvents(s, t, j, job);
    CountersFresh(s, t, j);
  }

  lemma MirrorFrame(s: State, t: State)
    requires s.sidecar.Readable? && Lives(s.pending) == s.sidecar.passes
    requires t.pending == s.pending && t.sidecar == s.sidecar
    ensures SidecarSound(t)
  {
  }

  lemma SubmitBranch(h: State, t: State, j: JobId, job: Job)
    requires Inv(h) && h.sidecar.Readable? && Lives(h.pending) == h.sidecar.passes && j !in h.jobs
    requires JobSound(job) && !job.timedOut && !job.unrecovered && (job.stage.NotQueued? || job.stage.Queued?)
    requires t.jobs == h.jobs[j := job] && t.worker == h.worker && t.pending == h.pending && t.sidecar == h.sidecar
    requires t.counters.timeouts == h.counters.timeouts && t.counters.unrecovered == h.counters.unrecovered
    requires if job.stage.Queued? then t.queue == h.queue + [j] && t.inFlight == h.inFlight[job.pass := j]
             else t.queue == h.queue && t.inFlight == h.inFlight
    requires job.stage.Queued? ==> job.pass !in h.pending && !EventUnset(h, job.pass)
    requires if job.caller.Claims()
             then job.caller.Reapplying? && job.pass in h.pending && h.pending[job.pass].life == job.caller.payload
                  && job.pass !in h.reapplying && t.reapplying == h.reapplying + {job.pass}
             else t.reapplying == h.reapplying
    ensures Inv(t)
  {
    hide JobSound, JobsSound, QueueSound, WorkerSound, EventsSound, ClaimsSound, SidecarSound, CountersSound;
    MirrorFrame(h, t);
    ClaimsFresh(h, t, j, job);
    EnterKeeps(h, t, j, job);
  }

  lemma ClaimantSound(job: Job, life: Lifecycle)
    requires JobSound(job) && job.caller == Replied(WriteInFlight)
    ensures JobSound(job.(caller := Reapplying(life)))
  {
  }

  lemma SubmitQueued(h: State, j: JobId, job: Job)
    requires Inv(h) && h.sidecar.Readable? && Lives(h.pending) == h.sidecar.passes && j !in h.jobs
    requires JobSound(job) && job.caller == Replied(WriteInFlight) && !job.timedOut && !job.unrecovered
    requires job.stage.NotQueued? && job.pass !in h.pending && !EventUnset(h, job.pass)
    ensures Inv(Enqueue(h, j, job, false))
  {
    hide JobSound, JobsSound, QueueSound, WorkerSound, EventsSound, ClaimsSound, SidecarSound, CountersSound, Inv;
    OfferedSound(h, job, false);
    SubmitBranch(h, Enqueue(h, j, job, false), j, Offered(h, job, false));
  }

  lemma SubmitHydratedKeeps(h: State, j: JobId, job: Job)
    requires Inv(h) && h.sidecar.Readable? && Lives(h.pending) == h.sidecar.passes && j !in h.jobs
    requires JobSound(job) && job.caller == Replied(WriteInFlight) && !job.timedOut && !job.unrecovered
    requires job.stage.NotQueued?
    ensures Inv(SubmitHydrated(h, j, job))
  {
    hide JobSound, JobsSound, QueueSound, WorkerSound, EventsSound, ClaimsSound, SidecarSound, CountersSound;
    var t := SubmitHydrated(h, j, job);
    if job.pass in h.pending && job.pass !in h.reapplying && (job.handler || h.pending[job.pass].handler) {
      ClaimantSound(job, h.pending[job.pass].life);
      SubmitBranch(h, t, j, job.(caller := Reapplying(h.pending[job.pass].life)));
    } else if job.pass in h.pending || EventUnset(h, job.pass) {
      SubmitBranch(h, t, j, job);
    } else {
      SubmitQueued(h, j, job);
    }
  }

  lemma NewJobSound(job: Job)
    requires job == NewJob(job.pass, job.drafts, job.wait, job.lifecycle, job.handler)
    ensures JobSound(job)
  {
  }

  lemma SubmitUnreadable(s: State, t: State, j: JobId, job: Job)
    requires Inv(s) && j !in s.jobs && s.sidecar.Unreadable? && t == WithJob(s, j, job)
    requires JobSound(job) && job.caller == Replied(WriteInFlight) && job.stage.NotQueued?
    requires !job.timedOut && !job.unrecovered
    ensures Inv(t)
  {
    hide JobSound, JobsSound, QueueSound, WorkerSound, EventsSound, ClaimsSound, CountersSound;
    ClaimsFresh(s, t, j, job);
    EnterKeeps(s, t, j, job);
  }

  lemma SubmitKeeps(s: State, j: JobId, job: Job)
    requires Inv(s) && j !in s.jobs
    requires job == NewJob(job.pass, job.drafts, job.wait, job.lifecycle, job.handler)
    ensures Inv(SubmitStep(s, j, job))
  {
    hide JobSound, JobsSound, QueueSound, WorkerSound, EventsSound, ClaimsSound, SidecarSound, CountersSound;
    var t := SubmitStep(s, j, job);
    NewJobSound(job);
    if s.sidecar.Unreadable? {
      SubmitUnreadable(s, t, j, job);
    } else {
      HydrateKeeps(s);
      hide Inv;
      SubmitHydratedKeeps(Hydrate(s), j, job);
    }
  }

  // -------------------------------------------------------------------- re-apply

  lemma DischargeEvents(s: State, d: State, p: Pass)
    requires EventsSound(s) && p in s.pending && d.pending == s.pending - {p} && d.inFlight == s.inFlight
    requires d.jobs == (if EventUnset(s, p) then s.jobs[s.inFlight[p] := s.jobs[s.inFlight[p]].(done := true)]
                        else s.jobs)
    ensures EventsSound(d)
  {
  }

  lemma DischargeClaims(s: State, d: State, p: Pass)
    requires ClaimsSound(s) && d.pending == s.pending - {p} && d.reapplying == s.reapplying
    requires d.jobs.Keys == s.jobs.Keys
    requires forall k :: k in s.jobs ==> d.jobs[k].caller == s.jobs[k].caller && d.jobs[k].pass == s.jobs[k].pass
    requires forall k :: k in s.jobs && s.jobs[k].caller.Reapplying? ==> s.jobs[k].pass != p
    ensures ClaimsSound(d)
  {
    assert forall k, q :: ClaimsPass(d.jobs, k, q) <==> ClaimsPass(s.jobs, k, q);
    forall q | q in d.reapplying
      ensures exists k :: ClaimsPass(d.jobs, k, q)
    {
      var k :| ClaimsPass(s.jobs, k, q);
      assert ClaimsPass(d.jobs, k, q);
    }
  }

  lemma DischargeWaking(s: State, d: State, p: Pass, q: JobId)
    requires Inv(s) && p in s.pending && EventUnset(s, p) && q == s.inFlight[p]
    requires forall k :: k in s.jobs && s.jobs[k].caller.Reapplying? ==> s.jobs[k].pass != p
    requires d == s.(jobs := s.jobs[q := s.jobs[q].(done := true)], pending := s.pending - {p},
                     sidecar := s.sidecar.Clear(p))
    ensures Inv(d)
  {
    hide JobSound, JobsSound, QueueSound, WorkerSound, EventsSound, ClaimsSound, SidecarSound, CountersSound;
    HeldEventIsIdle(s, p);
    JobOf(s, q);
    CallerMoves(s.jobs[q]);
    SidecarDischarged(s, d, p);
    CountersFrame(s, d, q);
    JobsFrame(s, d, q);
    QueueFrame(s, d, q);
    WorkerFrame(s, d, q);
    DischargeEvents(s, d, p);
    DischargeClaims(s, d, p);
  }

  lemma DischargeQuiet(s: State, d: State, p: Pass)
    requires Inv(s) && p in s.pending && !EventUnset(s, p) && s.jobs != map[]
    requires forall k :: k in s.jobs && s.jobs[k].caller.Reapplying? ==> s.jobs[k].pass != p
    requires d == s.(pending := s.pending - {p}, sidecar := s.sidecar.Clear(p))
    ensures Inv(d)
  {
    hide JobSound, JobsSound, QueueSound, WorkerSound, EventsSound, ClaimsSound, SidecarSound, CountersSound;
    TablesSame(s, d);
    CountersSame(s, d);
    SidecarDischarged(s, d, p);
    DischargeEvents(s, d, p);
    DischargeClaims(s, d, p);
  }

  /** A held pass has no busy job, so its in-flight event may be set and its hold dropped. */
  lemma DischargeHeld(s: State, p: Pass)
    requires Inv(s) && p in s.pending && s.jobs != map[]
    requires forall k :: k in s.jobs && s.jobs[k].caller.Reapplying? ==> s.jobs[k].pass != p
    ensures var d := SetPriorEvent(Discharge(s, p), p);
            Inv(d) && !EventUnset(d, p) && p !in d.pending
  {
    hide JobSound, JobsSound, QueueSound, WorkerSound, EventsSound, ClaimsSound, SidecarSound, CountersSound;
    var d := SetPriorEvent(Discharge(s, p), p);
    if EventUnset(s, p) {
      DischargeWaking(s, d, p, s.inFlight[p]);
    } else {
      DischargeQuiet(s, d, p);
    }
  }

  /** Enqueueing the claimant of an idle pass that is no longer held. */
  lemma EnqueueClaimant(s: State, t: State, j: JobId, job: Job)
    requires Inv(s) && j in s.jobs && s.jobs[j].stage.NotQueued? && s.jobs[j].caller.Releasing?
    requires JobSound(job) && job.pass == s.jobs[j].pass && job.caller.Releasing? && t.jobs == s.jobs[j := job]
    requires job.timedOut == s.jobs[j].timedOut && job.unrecovered == s.jobs[j].unrecovered
    requires job.stage.NotQueued? || job.stage.Queued?
    requires job.pass !in s.pending && !EventUnset(s, job.pass)
    requires t.worker == s.worker && t.pending == s.pending && t.sidecar == s.sidecar && t.reapplying == s.reapplying
    requires t.counters.timeouts == s.counters.timeouts && t.counters.unrecovered == s.counters.unrecovered
    requires if job.stage.Queued? then t.queue == s.queue + [j] && t.inFlight == s.inFlight[job.pass := j]
             else t.queue == s.queue && t.inFlight == s.inFlight
    ensures Inv(t)
  {
    IdlePass(s, job.pass);
    assert forall q :: q in s.inFlight ==> s.inFlight[q] != j;
    assert s.worker != Some(j) && j !in s.queue && SidecarSound(t);
    hide JobSound, JobsSound, QueueSound, WorkerSound, EventsSound, ClaimsSound, SidecarSound, CountersSound;
    JobsFrame(s, t, j);
    EnqueueQueue(s, t, j, job);
    EnqueueWorker(s, t, j, job);
    EnqueueEvents(s, t, j, job);
    ClaimsFrame(s, t, j);
    CountersFrame(s, t, j);
  }

  /** The claimant has been judged: it stops re-applying and nothing else moves. */
  lemma JudgedKeeps(s: State, j: JobId, reply: Reply)
    requires Inv(s) && Enabled(s, Reapplied(j, Raised)) && (reply.WriteInFlight? || reply.LifecycleRecovered?)
    ensures var r := WithCaller(s, j, Releasing(Replied(reply)));
            Inv(r) && forall k :: k in r.jobs && r.jobs[k].caller.Reapplying? ==> r.jobs[k].pass != s.jobs[j].pass
  {
    var r := WithCaller(s, j, Releasing(Replied(reply)));
    assert ClaimsPass(s.jobs, j, s.jobs[j].pass);
    forall k | k in s.jobs && k != j && s.jobs[k].caller.Reapplying?
      ensures s.jobs[k].pass != s.jobs[j].pass
    {
      assert ClaimsPass(s.jobs, k, s.jobs[k].pass);
    }
    CallerMoves(s.jobs[j]);
    hide JobSound, JobsSound, QueueSound, WorkerSound, EventsSound, ClaimsSound, SidecarSound, CountersSound;
    CountersFrame(s, r, j);
    QuietFrame(s, r, j);
  }

  lemma ReholdTables(s: State, t: State, j: JobId)
    requires JobsSound(s) && QueueSound(s) && WorkerSound(s) && j in s.jobs && j in t.jobs
    requires t.jobs == s.jobs[j := t.jobs[j]] && JobSound(t.jobs[j])
    requires t.jobs[j].pass == s.jobs[j].pass && t.jobs[j].stage == s.jobs[j].stage
    requires t.queue == s.queue && t.worker == s.worker
    ensures JobsSound(t) && QueueSound(t) && WorkerSound(t)
  {
    hide JobSound, JobsSound, QueueSound, WorkerSound;
    JobsFrame(s, t, j);
    QueueFrame(s, t, j);
    WorkerFrame(s, t, j);
  }

  lemma ReholdClaims(s: State, t: State, j: JobId, sticky: Sticky)
    requires ClaimsSound(s) && j in s.jobs && j in t.jobs && t.jobs == s.jobs[j := t.jobs[j]]
    requires t.jobs[j].pass == s.jobs[j].pass && s.jobs[j].caller.Claims()
    requires t.jobs[j].caller.Claims() && !t.jobs[j].caller.Reapplying?
    requires t.reapplying == s.reapplying && t.pending == s.pending[s.jobs[j].pass := sticky]
    requires s.jobs[j].pass in s.pending && sticky.life == s.pending[s.jobs[j].pass].life
    ensures ClaimsSound(t)
  {
    hide ClaimsSound;
    ClaimsFrame(s, t, j);
  }

  /** Holding the same decision set again changes the kept handler at most. */
  lemma ReholdKeeps(s: State, t: State, j: JobId, sticky: Sticky)
    requires Inv(s) && j in s.jobs && s.jobs[j].caller.Reapplying?
    requires s.jobs[j].pass in s.pending && sticky.life == s.pending[s.jobs[j].pass].life
    requires t.jobs == s.jobs[j := s.jobs[j].(caller := Releasing(Replied(WriteInFlight)))]
    requires t.queue == s.queue && t.worker == s.worker && t.inFlight == s.inFlight && t.reapplying == s.reapplying
    requires t.pending == s.pending[s.jobs[j].pass := sticky]
    requires t.sidecar == s.sidecar.Persist(s.jobs[j].pass, sticky.life)
    requires t.counters == s.counters.(applyFailures := s.counters.applyFailures + 1)
    ensures Inv(t)
  {
    hide JobSound, JobsSound, QueueSound, WorkerSound, EventsSound, ClaimsSound, SidecarSound, CountersSound;
    JobOf(s, j);
    CallerMoves(s.jobs[j]);
    SidecarHeld(s, t, s.jobs[j].pass, sticky);
    CountersFrame(s, t, j);
    ReholdTables(s, t, j);
    EventsFrame(s, t, j);
    ReholdClaims(s, t, j, sticky);
  }

  lemma RecountKeeps(s: State, t: State)
    requires Inv(s) && t == s.(counters := t.counters) && s.jobs != map[]
    requires t.counters.timeouts == s.counters.timeouts && t.counters.unrecovered == s.counters.unrecovered
    ensures Inv(t)
  {
    hide JobSound, JobsSound, QueueSound, WorkerSound, EventsSound, ClaimsSound, SidecarSound, CountersSound;
    TablesSame(s, t);
    EventsSame(s, t);
    ClaimsSame(s, t);
    SidecarSame(s, t);
    CountersSame(s, t);
  }

  /**
   After a complete re-apply the pass is neither held nor in flight, and the claimant's own job
   has not been queued.
   */
  lemma RecoveredKeeps(s: State, j: JobId)
    requires Inv(s) && Enabled(s, Reapplied(j, Raised))
    ensures var p := s.jobs[j].pass;
            var d := SetPriorEvent(Discharge(WithCaller(s, j, Releasing(Replied(LifecycleRecovered))), p), p);
            Inv(d) && !EventUnset(d, p) && p !in d.pending
            && d.jobs[j] == s.jobs[j].(caller := Releasing(Replied(LifecycleRecovered))) && JobSound(d.jobs[j])
            && d.jobs[j].stage.NotQueued?
  {
    hide JobSound, JobsSound, QueueSound, WorkerSound, EventsSound, ClaimsSound, SidecarSound, CountersSound;
    var p := s.jobs[j].pass;
    var r := WithCaller(s, j, Releasing(Replied(LifecycleRecovered)));
    ClaimantOf(s, j);
    CallerMoves(s.jobs[j]);
    JudgedKeeps(s, j, LifecycleRecovered);
    assert j in r.jobs;
    hide Inv;
    DischargeHeld(r, p);
  }

  /** A complete re-apply that did no work enqueues the claimant's own job in the same section. */
  lemma NoOpKeeps(d: State, j: JobId)
    requires Inv(d) && j in d.jobs && d.jobs[j].stage.NotQueued? && d.jobs[j].caller.Releasing?
    requires JobSound(d.jobs[j]) && d.jobs[j].pass !in d.pending && !EventUnset(d, d.jobs[j].pass)
    ensures Inv(Enqueue(d, j, d.jobs[j], true))
  {
    OfferedSound(d, d.jobs[j], true);
    hide JobSound, JobsSound, QueueSound, WorkerSound, EventsSound, ClaimsSound, SidecarSound, CountersSound;
    EnqueueClaimant(d, Enqueue(d, j, d.jobs[j], true), j, Offered(d, d.jobs[j], true));
  }

  lemma ReappliedKeeps(s: State, j: JobId, outcome: Outcome)
    requires Inv(s) && Enabled(s, Reapplied(j, outcome))
    ensures Inv(Next(s, Reapplied(j, outcome)))
  {
    if Complete(outcome, s.jobs[j].caller.payload) {
      CompleteReapplyKeeps(s, j, outcome);
    } else {
      RefusedReapplyKeeps(s, j, outcome);
    }
    hide Inv, Next;
  }

  /** A handler that raised or applied only part: the decision set is held again. */
  lemma RefusedReapplyKeeps(s: State, j: JobId, outcome: Outcome)
    requires Inv(s) && Enabled(s, Reapplied(j, outcome)) && !Complete(outcome, s.jobs[j].caller.payload)
    ensures Inv(Next(s, Reapplied(j, outcome)))
  {
    var p, payload, t := s.jobs[j].pass, s.jobs[j].caller.payload, Next(s, Reapplied(j, outcome));
    assert p in s.pending && s.pending[p].life == payload;
    hide JobSound, JobsSound, QueueSound, WorkerSound, EventsSound, ClaimsSound, SidecarSound, CountersSound;
    if outcome.Raised? {
      assert s.pending[p := s.pending[p]] == s.pending;
      ReholdKeeps(s, t, j, s.pending[p]);
    } else {
      ReholdKeeps(s, t, j, Sticky(payload, true));
    }
  }

  lemma CompleteReapplyKeeps(s: State, j: JobId, outcome: Outcome)
    requires Inv(s) && Enabled(s, Reapplied(j, outcome)) && Complete(outcome, s.jobs[j].caller.payload)
    ensures Inv(Next(s, Reapplied(j, outcome)))
  {
    var p, payload, t := s.jobs[j].pass, s.jobs[j].caller.payload, Next(s, Reapplied(j, outcome));
    hide JobSound, JobsSound, QueueSound, WorkerSound, EventsSound, ClaimsSound, SidecarSound, CountersSound;
    RecoveredKeeps(s, j);
    var d := SetPriorEvent(Discharge(WithCaller(s, j, Releasing(Replied(LifecycleRecovered))), p), p);
    if ApplyVerdict(outcome.report, payload).didWork {
      RecountKeeps(d, t);
    } else {
      NoOpKeeps(d, j);
    }
  }

  // ---------------------------------------------------------------- every step

  /** Every step of every thread keeps the invariant, crashes and corruption included. */
  lemma StepKeeps(s: State, step: Step)
    requires Inv(s) && Enabled(s, step)
    ensures Inv(Next(s, step))
  {
    hide JobSound, JobsSound, QueueSound, WorkerSound, EventsSound, ClaimsSound, SidecarSound, CountersSound;
    match step
    case Submit(j, pass, drafts, wait, lifecycle, handler) =>
      SubmitKeeps(s, j, NewJob(pass, drafts, wait, lifecycle, handler));
    case Reapplied(j, outcome) => ReappliedKeeps(s, j, outcome);
    case Release(j) => ReleaseKeeps(s, j);
    case ObserveDone(j) => ObserveDoneKeeps(s, j);
    case TimeOut(j) => TimeOutKeeps(s, j);
    case TakeJob => TakeJobKeeps(s);
    case FinishWrite(landed) => FinishWriteKeeps(s, landed);
    case CountFailure => CountFailureKeeps(s);
    case ClaimLifecycle => ClaimLifecycleKeeps(s);
    case ApplyDeferred(outcome) => ApplyDeferredKeeps(s, outcome);
    case FinishJob => FinishJobKeeps(s);
    case SampleStatus => if s.sidecar.Readable? { HydrateKeeps(s); }
    case Crash => ColdIsInv(s.sidecar);
    case CorruptSidecar => CorruptKeeps(s);
  }

  lemma UnreadableIsSound(t: State)
    requires t.sidecar.Unreadable?
    ensures SidecarSound(t)
  {
  }

  lemma CorruptKeeps(s: State)
    requires Inv(s)
    ensures Inv(s.(sidecar := Unreadable))
  {
    hide JobSound, JobsSound, QueueSound, WorkerSound, EventsSound, ClaimsSound, SidecarSound, CountersSound;
    var t := s.(sidecar := Unreadable);
    TablesSame(s, t);
    EventsSame(s, t);
    ClaimsSame(s, t);
    CountersSame(s, t);
    UnreadableIsSound(t);
  }
}
