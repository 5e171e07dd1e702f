/**
 The single-writer draft queue as a transition system.

 One step is one critical section under the in-flight lock, or one action of a
 thread between two sections.  Threads are the callers of `submit_drafts` (one
 job each), the single worker, and the status sampler.  A crash may happen
 between any two steps; a crash inside a section is the section or nothing,
 because the only durable effect of a section is one atomic sidecar write.
 */
module DraftQueue {
  import opened Prelude

  type Pass = string
  type JobId = nat

  // ---------------------------------------------------------------- lifecycle

  /** The decision set a batch carries: candidates to promote, dedup or review. */
  datatype Lifecycle = Lifecycle(promote: seq<string>, dedup: seq<string>, review: seq<string>)
  {
    predicate HasOps()
      ensures HasOps() <==> Size() > 0
    {
      promote != [] || dedup != [] || review != []
    }

    function Size(): nat {
      |promote| + |dedup| + |review|
    }
  }

  /** How many decisions of each kind a handler says it was asked for. */
  datatype Requested = Requested(promote: int, dedup: int, review: int)

  /** What a handler leaves under `applied`; `Unreported` is anything that is not a dict. */
  datatype Report =
    | Unreported
    | Report(remaining: Option<seq<string>>, errors: int, promoted: int, deduped: int, reviewed: int,
             requested: Option<Requested>)

  datatype Verdict = Verdict(complete: bool, didWork: bool)

  datatype Outcome = Raised | Returned(report: Report)

  function ApplyVerdict(report: Report, lifecycle: Lifecycle): Verdict {
    match report
    case Unreported => Verdict(true, true)
    case Report(remaining, errors, promoted, deduped, reviewed, requested) =>
      var terminalized := promoted + deduped + reviewed;
      var didWork := terminalized > 0;
      if remaining.Some? then
        Verdict(errors == 0 && |remaining.value| == 0, didWork)
      else
        var asked := if requested.Some? then requested.value.promote + requested.value.dedup + requested.value.review
                     else lifecycle.Size();
        if errors > 0 then Verdict(false, didWork)
        else if terminalized == 0 then Verdict(true, false)
        else if asked > 0 && terminalized >= asked then Verdict(true, true)
        else Verdict(false, didWork)
  }

  /** A handler that raises or reports a partial apply has not discharged the decision set. */
  predicate Complete(outcome: Outcome, lifecycle: Lifecycle) {
    outcome.Returned? && ApplyVerdict(outcome.report, lifecycle).complete
  }

  // -------------------------------------------------------------------- state

  datatype Out = Unset | Landed | Failed

  /** Where the worker is with a job. */
  datatype Stage =
    | NotQueued | Queued
    | Writing | Written | WriteFailed | Applying | Finishing(hold: bool)
    | Finished
  {
    predicate OnWorker() {
      Writing? || Written? || WriteFailed? || Applying? || Finishing?
    }

    /** The batch is still owed to the vault, or its completion event is still to be set. */
    predicate Busy() {
      Queued? || (OnWorker() && this != Finishing(true))
    }
  }

  datatype Reply =
    | WriteInFlight | LifecycleRecovered | QueueFull | QueuedOnly
    | Result | WriteError | WriteTimeout | MissingResult

  /** Where the submitting thread is with its own job. */
  datatype Caller =
    | Reapplying(payload: Lifecycle)
    | Releasing(next: Caller)
    | Waiting
    | Replied(reply: Reply)
  {
    /** The thread holds the pass's re-apply claim. */
    predicate Claims() {
      Reapplying? || Releasing?
    }

    /** The call ends, or will end, without its job ever being queued. */
    predicate Refused() {
      match this
      case Reapplying(_) => true
      case Releasing(next) => next.Refused()
      case Waiting => false
      case Replied(reply) => reply.WriteInFlight? || reply.LifecycleRecovered? || reply.QueueFull?
    }

    /** The call ends, or will end, with "queued" and nobody waiting. */
    predicate Unwaited() {
      match this
      case Reapplying(_) => false
      case Releasing(next) => next.Unwaited()
      case Waiting => false
      case Replied(reply) => reply.QueuedOnly?
    }
  }

  datatype Job = Job(
    pass: Pass, drafts: nat, wait: bool, lifecycle: Option<Lifecycle>, handler: bool,
    timedOut: bool, deferred: bool, applying: bool, applied: bool, applyFailed: bool,
    unrecovered: bool, out: Out, done: bool, stage: Stage, caller: Caller)
  {
    predicate HasOps() {
      lifecycle.Some? && lifecycle.value.HasOps()
    }
  }

  function NewJob(pass: Pass, drafts: nat, wait: bool, lifecycle: Option<Lifecycle>, handler: bool): Job {
    Job(pass, drafts, wait, lifecycle, handler, false, false, false, false, false, false,
        Unset, false, NotQueued, Replied(WriteInFlight))
  }

  /** A held decision set, and whether a handler was kept with it. */
  datatype Sticky = Sticky(life: Lifecycle, handler: bool)

  /** The vault's mirror of the held decision sets. A missing file is `Readable(map[])`. */
  datatype Sidecar = Unreadable | Readable(passes: map<Pass, Lifecycle>)
  {
    function Persist(pass: Pass, life: Lifecycle): Sidecar {
      if Unreadable? then this else Readable(passes[pass := life])
    }

    function Clear(pass: Pass): Sidecar {
      if Unreadable? then this else Readable(passes - {pass})
    }
  }

  datatype Counters = Counters(
    dropped: nat, timeouts: nat, writeFailures: nat, unrecovered: nat,
    applyFailures: nat, recoveredDropped: nat)

  const ZERO := Counters(0, 0, 0, 0, 0, 0)

  datatype State = State(
    jobs: map<JobId, Job>, queue: seq<JobId>, worker: Option<JobId>,
    inFlight: map<Pass, JobId>, pending: map<Pass, Sticky>, reapplying: set<Pass>,
    sidecar: Sidecar, counters: Counters)

  const QUEUE_MAX: nat := 256

  function Cold(sidecar: Sidecar): State {
    State(map[], [], None, map[], map[], {}, sidecar, ZERO)
  }

  // ----------------------------------------------------- parts of the sections

  function Lives(pending: map<Pass, Sticky>): map<Pass, Lifecycle> {
    map p | p in pending :: pending[p].life
  }

  /** In-memory entries win; an entry read from the sidecar has no handler. */
  function Merge(memory: map<Pass, Sticky>, stored: map<Pass, Lifecycle>): map<Pass, Sticky> {
    map p | p in memory.Keys + stored.Keys :: if p in memory then memory[p] else Sticky(stored[p], false)
  }

  function Hydrate(s: State): State
    requires s.sidecar.Readable?
  {
    s.(pending := Merge(s.pending, s.sidecar.passes))
  }

  function WithJob(s: State, j: JobId, job: Job): State {
    s.(jobs := s.jobs[j := job])
  }

  function WithCaller(s: State, j: JobId, caller: Caller): State
    requires j in s.jobs
  {
    WithJob(s, j, s.jobs[j].(caller := caller))
  }

  predicate EventUnset(s: State, p: Pass) {
    p in s.inFlight && s.inFlight[p] in s.jobs && !s.jobs[s.inFlight[p]].done
  }

  /** Record a held decision set in memory and in the sidecar, in one section. */
  function Hold(s: State, p: Pass, sticky: Sticky): State {
    s.(pending := s.pending[p := sticky],
       sidecar := s.sidecar.Persist(p, sticky.life),
       counters := s.counters.(applyFailures := s.counters.applyFailures + 1))
  }

  /** Drop a discharged decision set from memory and from the sidecar, in one section. */
  function Discharge(s: State, p: Pass): State {
    s.(pending := s.pending - {p}, sidecar := s.sidecar.Clear(p))
  }

  /** Set the event the pass's in-flight entry names, if any. */
  function SetPriorEvent(s: State, p: Pass): (t: State)
    ensures t.jobs.Keys == s.jobs.Keys
    ensures forall k :: k in s.jobs ==> t.jobs[k] == s.jobs[k].(done := t.jobs[k].done)
    ensures !EventUnset(t, p) && t.sidecar == s.sidecar
  {
    if EventUnset(s, p) then
      WithJob(s, s.inFlight[p], s.jobs[s.inFlight[p]].(done := true))
    else s
  }

  predicate Full(s: State) {
    |s.queue| >= QUEUE_MAX
  }

  /** A job met by `put_nowait`. A thread that holds the re-apply claim still has to release it. */
  function Offered(s: State, job: Job, claimed: bool): Job {
    var after := if Full(s) then Replied(QueueFull) else if job.wait then Waiting else Replied(QueuedOnly);
    job.(stage := if Full(s) then job.stage else Queued,
         caller := if claimed then Releasing(after) else after)
  }

  /** `put_nowait` and the in-flight entry, or the drop policy of a full queue. */
  function Enqueue(s: State, j: JobId, job: Job, claimed: bool): (t: State)
    ensures t.jobs == s.jobs[j := Offered(s, job, claimed)]
    ensures t.sidecar == s.sidecar && t.pending == s.pending
    ensures t.inFlight == if Full(s) then s.inFlight else s.inFlight[job.pass := j]
  {
    if Full(s) then
      s.(jobs := s.jobs[j := Offered(s, job, claimed)],
         counters := s.counters.(dropped := s.counters.dropped + 1))
    else
      s.(jobs := s.jobs[j := Offered(s, job, claimed)],
         queue := s.queue + [j],
         inFlight := s.inFlight[job.pass := j])
  }

  // -------------------------------------------------------------------- steps

  datatype Step =
    | Submit(j: JobId, pass: Pass, drafts: nat, wait: bool, lifecycle: Option<Lifecycle>, handler: bool)
    | Reapplied(j: JobId, outcome: Outcome)
    | Release(j: JobId)
    | ObserveDone(j: JobId)
    | TimeOut(j: JobId)
    | TakeJob
    | FinishWrite(landed: bool)
    | CountFailure
    | ClaimLifecycle
    | ApplyDeferred(outcome: Outcome)
    | FinishJob
    | SampleStatus
    | Crash
    | CorruptSidecar

  predicate AtStage(s: State, stage: Stage) {
    s.worker.Some? && s.worker.value in s.jobs && s.jobs[s.worker.value].stage == stage
  }

  predicate Enabled(s: State, step: Step) {
    match step
    case Submit(j, _, _, _, _, _) => j !in s.jobs
    case Reapplied(j, _) => j in s.jobs && s.jobs[j].caller.Reapplying?
    case Release(j) => j in s.jobs && s.jobs[j].caller.Releasing?
    case ObserveDone(j) => j in s.jobs && s.jobs[j].caller.Waiting? && s.jobs[j].done
    case TimeOut(j) => j in s.jobs && s.jobs[j].caller.Waiting?
    case TakeJob => s.worker.None? && s.queue != [] && s.queue[0] in s.jobs
    case FinishWrite(_) => AtStage(s, Writing)
    case CountFailure => AtStage(s, WriteFailed)
    case ClaimLifecycle => AtStage(s, Written)
    case ApplyDeferred(_) => AtStage(s, Applying) && s.jobs[s.worker.value].lifecycle.Some?
    case FinishJob => AtStage(s, Finishing(false)) || AtStage(s, Finishing(true))
    case SampleStatus => true
    case Crash => true
    case CorruptSidecar => true
  }

  function Next(s: State, step: Step): State
    requires Enabled(s, step)
  {
    match step
    case Submit(j, pass, drafts, wait, lifecycle, handler) =>
      SubmitStep(s, j, NewJob(pass, drafts, wait, lifecycle, handler))
    case Reapplied(j, outcome) => ReappliedStep(s, j, outcome)
    case Release(j) => ReleaseStep(s, j)
    case ObserveDone(j) => ObserveDoneStep(s, j)
    case TimeOut(j) => TimeOutStep(s, j)
    case TakeJob => TakeJobStep(s)
    case FinishWrite(landed) => FinishWriteStep(s, landed)
    case CountFailure => CountFailureStep(s)
    case ClaimLifecycle => ClaimLifecycleStep(s)
    case ApplyDeferred(outcome) => ApplyDeferredStep(s, outcome)
    case FinishJob => FinishJobStep(s)
    case SampleStatus => if s.sidecar.Readable? then Hydrate(s) else s
    case Crash => Cold(s.sidecar)
    case CorruptSidecar => s.(sidecar := Unreadable)
  }

  /** First section of `submit_drafts`: an unreadable sidecar refuses every submission. */
  function SubmitStep(s: State, j: JobId, job: Job): State {
    if s.sidecar.Unreadable? then WithJob(s, j, job) else SubmitHydrated(Hydrate(s), j, job)
  }

  function SubmitHydrated(h: State, j: JobId, job: Job): State {
    if job.pass in h.pending then
      if job.pass !in h.reapplying && (job.handler || h.pending[job.pass].handler) then
        WithJob(h, j, job.(caller := Reapplying(h.pending[job.pass].life)))
          .(reapplying := h.reapplying + {job.pass})
      else WithJob(h, j, job)
    else if EventUnset(h, job.pass) then WithJob(h, j, job)
    else Enqueue(h, j, job, false)
  }

  /** Second section: the handler ran outside the lock and its outcome is now judged. */
  function ReappliedStep(s: State, j: JobId, outcome: Outcome): State
    requires j in s.jobs && s.jobs[j].caller.Reapplying?
  {
    var p, payload := s.jobs[j].pass, s.jobs[j].caller.payload;
    if outcome.Raised? then
      var c := s.(counters := s.counters.(applyFailures := s.counters.applyFailures + 1));
      var kept := if p in s.pending then c.(sidecar := c.sidecar.Persist(p, s.pending[p].life)) else c;
      WithCaller(kept, j, Releasing(Replied(WriteInFlight)))
    else
      var verdict := ApplyVerdict(outcome.report, payload);
      if !verdict.complete then
        WithCaller(Hold(s, p, Sticky(payload, true)), j, Releasing(Replied(WriteInFlight)))
      else
        var r := WithCaller(s, j, Releasing(Replied(LifecycleRecovered)));
        var d := SetPriorEvent(Discharge(r, p), p);
        if verdict.didWork then
          d.(counters := d.counters.(recoveredDropped := d.counters.recoveredDropped + s.jobs[j].drafts))
        else
          Enqueue(d, j, d.jobs[j], true)
  }

  /** The `finally` section that drops the re-apply claim. */
  function ReleaseStep(s: State, j: JobId): State
    requires j in s.jobs && s.jobs[j].caller.Releasing?
  {
    WithCaller(s.(reapplying := s.reapplying - {s.jobs[j].pass}), j, s.jobs[j].caller.next)
  }

  /** What a waiter returns from `out`. */
  function OutReply(out: Out): Reply {
    match out
    case Failed => WriteError
    case Landed => Result
    case Unset => MissingResult
  }

  function ObserveDoneStep(s: State, j: JobId): State
    requires j in s.jobs
  {
    WithCaller(s, j, Replied(OutReply(s.jobs[j].out)))
  }

  /** The waiter's wait expired; it looks at `out` again under the lock. */
  function TimeOutStep(s: State, j: JobId): State
    requires j in s.jobs
  {
    var job := s.jobs[j];
    if job.out.Unset? then
      WithJob(s, j, job.(timedOut := true, deferred := job.deferred || job.lifecycle.Some?,
                         caller := Replied(WriteTimeout)))
        .(counters := s.counters.(timeouts := s.counters.timeouts + 1))
    else
      WithCaller(s, j, Replied(OutReply(job.out)))
  }

  function TakeJobStep(s: State): State
    requires s.queue != [] && s.queue[0] in s.jobs
  {
    var j := s.queue[0];
    WithJob(s, j, s.jobs[j].(stage := Writing)).(queue := s.queue[1..], worker := Some(j))
  }

  /** `_write_batch` returned or raised; `out` is set before any lock is taken. */
  function FinishWriteStep(s: State, landed: bool): State
    requires AtStage(s, Writing)
  {
    var j := s.worker.value;
    WithJob(s, j, if landed then s.jobs[j].(out := Landed, stage := Written)
                  else s.jobs[j].(out := Failed, stage := WriteFailed))
  }

  /** A failed batch: unrecovered exactly when its waiter has already left. */
  function CountFailureStep(s: State): State
    requires AtStage(s, WriteFailed)
  {
    var j := s.worker.value;
    var job := s.jobs[j];
    var gone := job.timedOut || job.deferred;
    WithJob(s, j, job.(unrecovered := gone, stage := Finishing(false)))
      .(counters := s.counters.(writeFailures := s.counters.writeFailures + 1,
                                unrecovered := s.counters.unrecovered + (if gone then 1 else 0)))
  }

  /** First section of `_maybe_apply_deferred_lifecycle`. */
  function ClaimLifecycleStep(s: State): State
    requires AtStage(s, Written)
  {
    var j := s.worker.value;
    var job := s.jobs[j];
    if !job.HasOps() || !job.deferred || job.applied then
      WithJob(s, j, job.(stage := Finishing(false)))
    else if job.applying then
      WithJob(s, j, job.(stage := Finishing(true)))
    else if !job.handler then
      WithJob(Hold(s, job.pass, Sticky(job.lifecycle.value, false)), j,
              job.(applyFailed := true, stage := Finishing(true)))
    else
      WithJob(s, j, job.(applying := true, stage := Applying))
  }

  /** Second section: the worker's handler ran outside the lock. */
  function ApplyDeferredStep(s: State, outcome: Outcome): State
    requires AtStage(s, Applying) && s.jobs[s.worker.value].lifecycle.Some?
  {
    var j := s.worker.value;
    var job := s.jobs[j];
    if Complete(outcome, job.lifecycle.value) then
      WithJob(Discharge(s, job.pass), j, job.(applied := true, applying := false, stage := Finishing(false)))
    else
      WithJob(Hold(s, job.pass, Sticky(job.lifecycle.value, true)), j,
              job.(applyFailed := true, applying := false, stage := Finishing(true)))
  }

  /** The `finally` of `_process_job`: a held pass keeps its event unset. */
  function FinishJobStep(s: State): State
    requires AtStage(s, Finishing(false)) || AtStage(s, Finishing(true))
  {
    var j := s.worker.value;
    var job := s.jobs[j];
    WithJob(s, j, job.(done := job.done || !job.stage.hold, stage := Finished)).(worker := None)
  }
}
