/**
 The critical sections of the draft writer over its module-level state, updated in place.
 Each section is the atomic step of the same name in `DraftQueue`; the safety results about runs
 of those steps are therefore results about these sections.
 */
module DraftWriter {
  import opened Prelude
  import opened DraftQueue
  import opened DraftQueueInvariant
  import opened LifecycleReport

  lemma MergeNothing(memory: map<Pass, Sticky>, loaded: map<Pass, Lifecycle>)
    ensures Merge(memory, loaded - loaded.Keys) == memory
  {
  }

  lemma MergeIs(memory: map<Pass, Sticky>, loaded: map<Pass, Lifecycle>)
    ensures var m := Merge(memory, loaded);
      && m.Keys == memory.Keys + loaded.Keys
      && forall p :: p in m ==> m[p] == if p in memory then memory[p] else Sticky(loaded[p], false)
  {
  }

  lemma MergeOneMore(memory: map<Pass, Sticky>, loaded: map<Pass, Lifecycle>, todo: set<Pass>, name: Pass)
    requires name in todo && todo <= loaded.Keys
    ensures var sofar := Merge(memory, loaded - todo);
            Merge(memory, loaded - (todo - {name}))
            == if name in sofar then sofar else sofar[name := Sticky(loaded[name], false)]
  {
  }

  /** The claim section, branch by branch. */
  lemma ClaimCases(s: State)
    requires Enabled(s, ClaimLifecycle)
    ensures var j := s.worker.value; var job := s.jobs[j]; var t := ClaimLifecycleStep(s);
      if !job.HasOps() || !job.deferred || job.applied then
        t == s.(jobs := s.jobs[j := job.(stage := Finishing(false))])
      else if job.applying then t == s.(jobs := s.jobs[j := job.(stage := Finishing(true))])
      else if !job.handler then
        var h := Hold(s, job.pass, Sticky(job.lifecycle.value, false));
        t == h.(jobs := s.jobs[j := job.(applyFailed := true, stage := Finishing(true))])
      else t == s.(jobs := s.jobs[j := job.(applying := true, stage := Applying)])
  {
  }

  /** The state once a complete re-apply has been judged and its hold dropped. */
  function Recovered(s: State, j: JobId): State
    requires j in s.jobs
  {
    var p := s.jobs[j].pass;
    SetPriorEvent(Discharge(WithCaller(s, j, Releasing(Replied(LifecycleRecovered))), p), p)
  }

  /** The complete branches of a re-apply. */
  lemma RecoveredCase(s: State, j: JobId, outcome: Outcome)
    requires Enabled(s, Reapplied(j, outcome)) && Complete(outcome, s.jobs[j].caller.payload)
    ensures var d := Recovered(s, j);
            j in d.jobs
            && ReappliedStep(s, j, outcome)
               == if ApplyVerdict(outcome.report, s.jobs[j].caller.payload).didWork
                  then d.(counters := d.counters.(recoveredDropped := d.counters.recoveredDropped + s.jobs[j].drafts))
                  else Enqueue(d, j, d.jobs[j], true)
  {
    hide Enqueue, ApplyVerdict;
  }

  /** The branches that hold the decision set again. */
  lemma ReheldCases(s: State, j: JobId, outcome: Outcome)
    requires Enabled(s, Reapplied(j, outcome)) && !Complete(outcome, s.jobs[j].caller.payload)
    ensures var job := s.jobs[j];
            var judged := s.jobs[j := job.(caller := Releasing(Replied(WriteInFlight)))];
            ReappliedStep(s, j, outcome)
            == if outcome.Raised? then
                 s.(jobs := judged,
                    sidecar := if job.pass in s.pending then s.sidecar.Persist(job.pass, s.pending[job.pass].life)
                               else s.sidecar,
                    counters := s.counters.(applyFailures := s.counters.applyFailures + 1))
               else Hold(s, job.pass, Sticky(job.caller.payload, true)).(jobs := judged)
  {
    hide ApplyVerdict;
  }

  /** Queue, in-flight entries, counters and worker did not change. */
  ghost predicate QueueAsItWas(s: State, t: State) {
    t.queue == s.queue && t.inFlight == s.inFlight && t.counters == s.counters && t.worker == s.worker
  }

  /** A submission to a held pass: re-applied by whoever may claim it, otherwise refused; nothing is queued. */
  lemma SubmitToHeld(s: State, j: JobId, job: Job)
    requires s.sidecar.Readable? && (job.pass in s.pending || job.pass in s.sidecar.passes)
    ensures var t := SubmitStep(s, j, job);
      var held := if job.pass in s.pending then s.pending[job.pass] else Sticky(s.sidecar.passes[job.pass], false);
      && QueueAsItWas(s, t) && t.sidecar == s.sidecar
      && if job.pass in s.reapplying || !(job.handler || held.handler) then
           t.jobs == s.jobs[j := job] && t.reapplying == s.reapplying
         else
           t.jobs == s.jobs[j := job.(caller := Reapplying(held.life))] && t.reapplying == s.reapplying + {job.pass}
  {
    MergeIs(s.pending, s.sidecar.passes);
    hide Merge;
  }

  /** A submission to a pass that is not held: refused while its event is unset, dropped if the queue has 256 jobs. */
  lemma SubmitToFree(s: State, j: JobId, job: Job)
    requires s.sidecar.Readable? && job.pass !in s.pending && job.pass !in s.sidecar.passes
    ensures var t := SubmitStep(s, j, job);
      && j in t.jobs && t.jobs == s.jobs[j := t.jobs[j]]
      && t.reapplying == s.reapplying && t.worker == s.worker && t.sidecar == s.sidecar
      && if job.pass in s.inFlight && s.inFlight[job.pass] in s.jobs && !s.jobs[s.inFlight[job.pass]].done then
           t.jobs[j] == job && QueueAsItWas(s, t)
         else if |s.queue| >= 256 then
           && t.jobs[j] == job.(caller := Replied(QueueFull))
           && t.queue == s.queue && t.inFlight == s.inFlight
           && t.counters == s.counters.(dropped := s.counters.dropped + 1)
         else
           && t.jobs[j] == job.(stage := Queued, caller := if job.wait then Waiting else Replied(QueuedOnly))
           && t.queue == s.queue + [j] && t.inFlight == s.inFlight[job.pass := j] && t.counters == s.counters
  {
    MergeIs(s.pending, s.sidecar.passes);
    hide Merge;
    var h := Hydrate(s);
    assert job.pass !in h.pending;
    assert SubmitStep(s, j, job) == SubmitHydrated(h, j, job);
  }

  /** A submission while the sidecar cannot be read is refused, held pass or not, and changes nothing. */
  lemma SubmitUnreadable(s: State, j: JobId, job: Job)
    requires s.sidecar.Unreadable?
    ensures SubmitStep(s, j, job) == s.(jobs := s.jobs[j := job])
  {
  }

  /** A waiter that times out: only without an outcome is it a timeout, and only then are its decisions deferred. */
  lemma TimeOutTells(s: State, j: JobId)
    requires j in s.jobs
    ensures var t, job := TimeOutStep(s, j), s.jobs[j];
      match job.out
      case Unset =>
        && t.jobs == s.jobs[j := job.(timedOut := true, deferred := job.deferred || job.lifecycle.Some?,
                                      caller := Replied(WriteTimeout))]
        && t.counters == s.counters.(timeouts := s.counters.timeouts + 1)
      case Failed => t == s.(jobs := s.jobs[j := job.(caller := Replied(WriteError))])
      case Landed => t == s.(jobs := s.jobs[j := job.(caller := Replied(Result))])
  {
  }

  /** Every failed batch is counted, and once more when nobody is left to be told. */
  lemma CountFailureTells(s: State)
    requires AtStage(s, WriteFailed)
    ensures var t, j := CountFailureStep(s), s.worker.value;
      && t.jobs.Keys == s.jobs.Keys && t.jobs[j].stage == Finishing(false)
      && (t.jobs[j].unrecovered <==> s.jobs[j].timedOut || s.jobs[j].deferred)
      && t.counters == s.counters.(writeFailures := s.counters.writeFailures + 1,
                                   unrecovered := t.counters.unrecovered)
      && t.counters.unrecovered == s.counters.unrecovered + if s.jobs[j].timedOut || s.jobs[j].deferred then 1 else 0
  {
  }

  lemma SectionKeeps(s: State, step: Step)
    requires Enabled(s, step)
    ensures Inv(s) ==> Inv(Next(s, step))
  {
    if Inv(s) {
      StepKeeps(s, step);
    }
    hide *;
  }

  class Writer {
    var jobs: map<JobId, Job>
    var workQueue: seq<JobId>
    var worker: Option<JobId>
    var inFlight: map<Pass, JobId>
    var pending: map<Pass, Sticky>
    var reapplying: set<Pass>
    var sidecar: Sidecar
    var counters: Counters

    ghost function Snapshot(): State
      reads this
    {
      State(jobs, workQueue, worker, inFlight, pending, reapplying, sidecar, counters)
    }

    /** The invariant of the transition system holds of these fields. */
    ghost predicate Valid()
      reads this
    {
      Inv(Snapshot())
    }

    /** A daemon start: nothing in memory, the vault's sidecar as it was left. */
    constructor (vaultSidecar: Sidecar)
      ensures Snapshot() == Cold(vaultSidecar) && Valid()
      ensures jobs == map[] && workQueue == [] && worker == None && inFlight == map[] && pending == map[]
      ensures reapplying == {} && sidecar == vaultSidecar && counters == Counters(0, 0, 0, 0, 0, 0)
    {
      ColdIsInv(vaultSidecar);
      jobs, workQueue, worker, inFlight := map[], [], None, map[];
      pending, reapplying, sidecar, counters := map[], {}, vaultSidecar, ZERO;
    }

    /** `_hydrate_pending_lifecycle_from_vault`: False when the sidecar cannot be read. */
    method HydratePending() returns (ok: bool)
      modifies `pending
      ensures ok <==> sidecar.Readable?
      ensures Snapshot() == if ok then Hydrate(old(Snapshot())) else old(Snapshot())
    {
      if sidecar.Unreadable? {
        return false;
      }
      hide Merge;
      ghost var memory := pending;
      var loaded, todo := sidecar.passes, sidecar.passes.Keys;
      MergeNothing(memory, loaded);
      while todo != {}
        invariant todo <= loaded.Keys
        invariant pending == Merge(memory, loaded - todo)
        decreases |todo|
      {
        var name :| name in todo;
        MergeOneMore(memory, loaded, todo, name);
        if name !in pending {
          pending := pending[name := Sticky(loaded[name], false)];
        }
        todo := todo - {name};
      }
      assert loaded - todo == loaded;
      ok := true;
    }

    /** `put_nowait` and its drop policy. */
    method PutNoWait(j: JobId, claimed: bool)
      requires j in jobs
      modifies `jobs, `workQueue, `inFlight, `counters
      ensures Snapshot() == Enqueue(old(Snapshot()), j, old(jobs)[j], claimed)
    {
      var job := jobs[j];
      var queued, after := false, Replied(QueueFull);
      if |workQueue| >= QUEUE_MAX {
        counters := counters.(dropped := counters.dropped + 1);
      } else {
        workQueue := workQueue + [j];
        inFlight := inFlight[job.pass := j];
        queued, after := true, if job.wait then Waiting else Replied(QueuedOnly);
      }
      if claimed {
        after := Releasing(after);
      }
      var stage := if queued then Queued else job.stage;
      jobs := jobs[j := job.(stage := stage, caller := after)];
    }

    /** Hold a decision set: memory, sidecar and failure counter in one section. */
    method RecordHold(p: Pass, sticky: Sticky)
      modifies `pending, `sidecar, `counters
      ensures Snapshot() == Hold(old(Snapshot()), p, sticky)
      ensures pending == old(pending)[p := sticky]
      ensures counters == old(counters).(applyFailures := old(counters).applyFailures + 1)
      ensures sidecar == if old(sidecar).Unreadable? then old(sidecar)
                         else Readable(old(sidecar).passes[p := sticky.life])
    {
      counters := counters.(applyFailures := counters.applyFailures + 1);
      pending := pending[p := sticky];
      sidecar := sidecar.Persist(p, sticky.life);
    }

    /** First section of `submit_drafts`. */
    method Submit(j: JobId, job: Job)
      requires j !in jobs
      requires job == NewJob(job.pass, job.drafts, job.wait, job.lifecycle, job.handler)
      modifies this
      ensures Snapshot() == SubmitStep(old(Snapshot()), j, job)
      ensures old(Valid()) ==> Valid()
    {
      hide Inv;
      SectionKeeps(Snapshot(), DraftQueue.Submit(j, job.pass, job.drafts, job.wait, job.lifecycle, job.handler));
      var hydrated := HydratePending();
      ghost var h := Snapshot();
      var refused := false;
      if !hydrated {
        refused := true;
      } else if job.pass in pending {
        var sticky := pending[job.pass];
        if job.pass in reapplying || !(job.handler || sticky.handler) {
          refused := true;
        } else {
          reapplying := reapplying + {job.pass};
          jobs := jobs[j := job.(caller := Reapplying(sticky.life))];
        }
      } else if job.pass in inFlight && inFlight[job.pass] in jobs && !jobs[inFlight[job.pass]].done {
        refused := true;
      } else {
        jobs := jobs[j := job];
        PutNoWait(j, false);
        assert h.jobs[j := job][j := Offered(h, job, false)] == h.jobs[j := Offered(h, job, false)];
      }
      if refused {
        jobs := jobs[j := job];
      }
    }

    /** The decision set is discharged: memory, the event recorded for the pass, and the sidecar. */
    method DropHold(j: JobId)
      requires j in jobs
      modifies `jobs, `pending, `sidecar
      ensures Snapshot() == Recovered(old(Snapshot()), j)
    {
      var p := jobs[j].pass;
      jobs := jobs[j := jobs[j].(caller := Releasing(Replied(LifecycleRecovered)))];
      pending := pending - {p};
      if p in inFlight && inFlight[p] in jobs && !jobs[inFlight[p]].done {
        jobs := jobs[inFlight[p] := jobs[inFlight[p]].(done := true)];
      }
      sidecar := sidecar.Clear(p);
    }

    /** Second section of a re-apply, once the handler has returned or raised. */
    method JudgeReapply(j: JobId, outcome: Outcome)
      requires Enabled(Snapshot(), Reapplied(j, outcome))
      modifies this
      ensures Snapshot() == ReappliedStep(old(Snapshot()), j, outcome)
      ensures outcome.Raised? ==> pending == old(pending)
      ensures outcome.Returned? ==>
                var p := old(jobs)[j].pass;
                && HeldAsReported(p in pending, outcome, old(jobs)[j].caller.payload)
                && (sidecar.Readable? ==> (p in sidecar.passes <==> p in pending))
      ensures old(Valid()) ==> Valid()
    {
      hide Inv;
      SectionKeeps(Snapshot(), Reapplied(j, outcome));
      var job := jobs[j];
      var p, payload := job.pass, job.caller.payload;
      hide ReappliedStep, Hold, Enqueue, ApplyVerdict, Recovered, HeldAsReported;
      HeldUnlessComplete(outcome, payload);
      if outcome.Raised? {
        ReheldCases(Snapshot(), j, outcome);
        counters := counters.(applyFailures := counters.applyFailures + 1);
        if p in pending {
          sidecar := sidecar.Persist(p, pending[p].life);
        }
        jobs := jobs[j := job.(caller := Releasing(Replied(WriteInFlight)))];
        return;
      }
      var verdict := ApplyVerdict(outcome.report, payload);
      if !verdict.complete {
        ReheldCases(Snapshot(), j, outcome);
        RecordHold(p, Sticky(payload, true));
        jobs := jobs[j := job.(caller := Releasing(Replied(WriteInFlight)))];
        return;
      }
      RecoveredCase(Snapshot(), j, outcome);
      DropHold(j);
      if verdict.didWork {
        counters := counters.(recoveredDropped := counters.recoveredDropped + job.drafts);
      } else {
        PutNoWait(j, true);
      }
    }

    /** The `finally` section of a re-apply. */
    method ReleaseClaim(j: JobId)
      requires Enabled(Snapshot(), Release(j))
      modifies this
      ensures Snapshot() == ReleaseStep(old(Snapshot()), j)
      ensures reapplying == old(reapplying) - {old(jobs)[j].pass}
      ensures jobs == old(jobs)[j := old(jobs)[j].(caller := old(jobs)[j].caller.next)]
      ensures old(Valid()) ==> Valid()
    {
      hide Inv;
      SectionKeeps(Snapshot(), Release(j));
      reapplying := reapplying - {jobs[j].pass};
      jobs := jobs[j := jobs[j].(caller := jobs[j].caller.next)];
    }

    /** The section a waiter enters after its wait expired. */
    method TimeOutWaiter(j: JobId)
      requires Enabled(Snapshot(), TimeOut(j))
      modifies this
      ensures Snapshot() == TimeOutStep(old(Snapshot()), j)
      ensures old(Valid()) ==> Valid()
    {
      hide Inv;
      SectionKeeps(Snapshot(), TimeOut(j));
      var job := jobs[j];
      var timedOut, deferred, reply := job.timedOut, job.deferred, WriteTimeout;
      if job.out.Unset? {
        counters := counters.(timeouts := counters.timeouts + 1);
        timedOut := true;
        if job.lifecycle.Some? {
          deferred := true;
        }
      } else if job.out.Failed? {
        reply := WriteError;
      } else {
        reply := Result;
      }
      jobs := jobs[j := job.(timedOut := timedOut, deferred := deferred, caller := Replied(reply))];
    }

    /** A waiter whose event was set reads what the worker left. */
    method ObserveOutcome(j: JobId)
      requires Enabled(Snapshot(), ObserveDone(j))
      modifies this
      ensures Snapshot() == ObserveDoneStep(old(Snapshot()), j)
      ensures old(jobs)[j].out == Failed ==> jobs == old(jobs)[j := old(jobs)[j].(caller := Replied(WriteError))]
      ensures old(jobs)[j].out == Landed ==> jobs == old(jobs)[j := old(jobs)[j].(caller := Replied(Result))]
      ensures old(Valid()) ==> Valid()
    {
      hide Inv;
      SectionKeeps(Snapshot(), ObserveDone(j));
      var job := jobs[j];
      var reply := MissingResult;
      if job.out.Failed? {
        reply := WriteError;
      } else if job.out.Landed? {
        reply := Result;
      }
      jobs := jobs[j := job.(caller := Replied(reply))];
    }

    /** The worker takes the oldest job off the queue. */
    method TakeNext() returns (j: JobId)
      requires Enabled(Snapshot(), TakeJob)
      modifies this
      ensures j == old(workQueue)[0]
      ensures Snapshot() == TakeJobStep(old(Snapshot()))
      ensures workQueue == old(workQueue)[1..] && worker == Some(j)
      ensures jobs == old(jobs)[j := old(jobs)[j].(stage := Writing)]
      ensures old(Valid()) ==> Valid()
    {
      hide Inv;
      SectionKeeps(Snapshot(), TakeJob);
      j := workQueue[0];
      workQueue := workQueue[1..];
      worker := Some(j);
      jobs := jobs[j := jobs[j].(stage := Writing)];
    }

    /** `out` is filled in before the worker takes any lock. */
    method ReportBatch(landed: bool)
      requires Enabled(Snapshot(), FinishWrite(landed))
      modifies this
      ensures Snapshot() == FinishWriteStep(old(Snapshot()), landed)
      ensures worker == old(worker) && var j := worker.value;
        jobs == old(jobs)[j := old(jobs)[j].(out := if landed then Landed else Failed,
                                             stage := if landed then Written else WriteFailed)]
      ensures old(Valid()) ==> Valid()
    {
      hide Inv;
      SectionKeeps(Snapshot(), FinishWrite(landed));
      var j := worker.value;
      var out, stage := Failed, WriteFailed;
      if landed {
        out, stage := Landed, Written;
      }
      jobs := jobs[j := jobs[j].(out := out, stage := stage)];
    }

    /** First section of `_maybe_apply_deferred_lifecycle`; the handler runs only when `run` comes back. */
    method ClaimDeferred() returns (run: bool)
      requires Enabled(Snapshot(), ClaimLifecycle)
      modifies this
      ensures Snapshot() == ClaimLifecycleStep(old(Snapshot()))
      ensures old(Valid()) ==> Valid()
      ensures run <==> jobs[worker.value].stage.Applying?
    {
      hide Inv;
      SectionKeeps(Snapshot(), ClaimLifecycle);
      ClaimCases(Snapshot());
      hide ClaimLifecycleStep, Hold;
      var j := worker.value;
      var job := jobs[j];
      if !job.HasOps() || !job.deferred || job.applied {
        jobs := jobs[j := job.(stage := Finishing(false))];
        return false;
      }
      if job.applying {
        jobs := jobs[j := job.(stage := Finishing(true))];
        return false;
      }
      if !job.handler {
        RecordHold(job.pass, Sticky(job.lifecycle.value, false));
        jobs := jobs[j := job.(applyFailed := true, stage := Finishing(true))];
        return false;
      }
      jobs := jobs[j := job.(applying := true, stage := Applying)];
      return true;
    }

    /** Second section of `_maybe_apply_deferred_lifecycle`. */
    method JudgeDeferred(outcome: Outcome)
      requires Enabled(Snapshot(), ApplyDeferred(outcome))
      modifies this
      ensures Snapshot() == ApplyDeferredStep(old(Snapshot()), outcome)
      ensures HeldAsReported(old(jobs)[old(worker).value].pass in pending, outcome,
                             old(jobs)[old(worker).value].lifecycle.value)
      ensures old(Valid()) ==> Valid()
    {
      hide Inv;
      SectionKeeps(Snapshot(), ApplyDeferred(outcome));
      var j := worker.value;
      var job := jobs[j];
      var life := job.lifecycle.value;
      HeldUnlessComplete(outcome, life);
      hide HeldAsReported, ApplyVerdict;
      if outcome.Returned? && ApplyVerdict(outcome.report, life).complete {
        pending := pending - {job.pass};
        sidecar := sidecar.Clear(job.pass);
        jobs := jobs[j := job.(applied := true, applying := false, stage := Finishing(false))];
      } else {
        RecordHold(job.pass, Sticky(life, true));
        jobs := jobs[j := job.(applyFailed := true, applying := false, stage := Finishing(true))];
      }
    }

    /** The failure section of `_process_job`. */
    method CountFailedBatch()
      requires Enabled(Snapshot(), CountFailure)
      modifies this
      ensures Snapshot() == CountFailureStep(old(Snapshot()))
      ensures old(Valid()) ==> Valid()
    {
      hide Inv;
      SectionKeeps(Snapshot(), CountFailure);
      var j := worker.value;
      var job := jobs[j];
      counters := counters.(writeFailures := counters.writeFailures + 1);
      if job.timedOut || job.deferred {
        counters := counters.(unrecovered := counters.unrecovered + 1);
      }
      jobs := jobs[j := job.(unrecovered := job.timedOut || job.deferred, stage := Finishing(false))];
    }

    /** The `finally` of `_process_job`: the event is set unless the pass is held. */
    method FinishBatch()
      requires Enabled(Snapshot(), FinishJob)
      modifies this
      ensures Snapshot() == FinishJobStep(old(Snapshot()))
      ensures worker == None && var j := old(worker).value;
        && (jobs[j].done <==> old(jobs)[j].done || old(jobs)[j].stage == Finishing(false))
        && jobs == old(jobs)[j := old(jobs)[j].(done := jobs[j].done, stage := Finished)]
      ensures old(Valid()) ==> Valid()
    {
      hide Inv;
      SectionKeeps(Snapshot(), FinishJob);
      var j := worker.value;
      var job := jobs[j];
      if !job.stage.hold {
        job := job.(done := true);
      }
      jobs := jobs[j := job.(stage := Finished)];
      worker := None;
    }
  }
}
