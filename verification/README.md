# Minni: verified models

Minni is a memory daemon. Its on-device model loop (AFM) drafts wiki pages, a single writer
thread lands them in a vault, and benches and scripts around it measure recall, scrub corpora
and tidy inboxes. This project models the parts of it that are hardest to get right and proves
what they promise.

## What is modelled

**The draft writer** (`DraftQueue`, `DraftQueueInvariant`, `DraftQueueSafety`, `DraftWriter`, `LifecycleReport`).
Submitters, waiters that may time out, one worker and the status sampler share a queue, per-pass
in-flight events, held ("sticky") decision sets mirrored to a sidecar file, and claim flags.
`DraftQueue` is the transition system whose steps are the critical sections under the in-flight
lock, the worker's actions between them, crashes, and a sidecar that becomes unreadable.
`DraftWriter` is the same code over fields updated in place, each section proved to be its step.
An inductive invariant gives the safety results over all runs. `LifecycleReport` relates a handler's
report to what the handler really did, and so says when a held set may be dropped.

**The batch write** (`BatchLedger`, `BatchLedgerSafety`, `BatchWriter`). A ledger run is committed
with all rows pending, pages land one by one, then the run is flipped. A crash may come after any
atomic write, and a batch may be rerun any number of times.

**The status of a page** (`Frontmatter`, `StatusLine`, `DraftStatus`, `WikiLifecycle`). Expiry sweeps and
endorsements race for one page under its lock. The frontmatter block and the draft-status pattern
are modelled character by character; `StatusLine` says what the pattern matches and reads the status
back off a rewritten page.

**Bounded memory** (`TemplateTracker`, `Ordering`). A ring of 16 occurrences and a map of 8
sessions stand in for a template's whole history.

**Chunking** (`ListPacking`, `Words`, `TextChunking`). Greedy packing under a token budget; sliding
windows with sentence snapping; recursive re-splitting of pieces that overflow.

**Statistics** (`StepUp`, `RankingMetrics`, `JudgeAgreement`). Benjamini-Hochberg adjustment, nDCG
and its companions with the contract that keeps them bounded, Cohen's kappa and the publishing gate.

**Scheduling, scrubbing, marking, cleaning** (`IdleScheduler`; `Redaction`, `DocIdRename`,
`FreshNames`; `DocIdMarker`; `InboxCleanup`).

`Prelude` holds small shared definitions. Code that updates state is modelled by classes and
methods with loops, each proved against a specification function or predicate whose properties
are the lemmas listed below; code that only computes is modelled by functions.

## Where the code falls short of its intent

- A batch that crashed between landing a page and the flip never gets a row that says written for
  that page: reruns take the pending row over (`BatchLedgerSafety.StuckPendingStays`).
- The ledger is read for the current day only, so a rerun on a later day mints second pages
  (`BatchLedgerSafety.SecondPageExactlyWhen`, and in terms of the two days
  `BatchLedgerSafety.SecondPageExactlyWhenDaysMove`).
- Two drafts of one batch with one page path leave one page and two rows that say written
  (`BatchLedgerSafety.SharedPathIsTheFirsts`, and in general `BatchLedgerSafety.RowHasPageExactlyWhen`).
- A landed batch that nobody waited on leaves its decisions to nobody
  (`DraftQueueSafety.LandedOutcomeHasOneOwner`).
- A handler that leaves no report is taken to have settled every decision, and one that reports counts only
  is never believed to have settled a set that lists a decision twice (`LifecycleReport.HeldUnlessComplete`,
  `LifecycleReport.VerdictTells`).
- A block with a second draft-status line still reads as a draft after a verdict
  (`Frontmatter.RestampLeavesDraft`).
- A prompt judged again after its occurrence left the ring counts its own session
  (`TemplateTracker.BoundedVerdict`).
- nDCG is 0, not 1, for k = 0 (`RankingMetrics.NdcgBounds`).
- A scheduled pass with an empty name stops the scheduler for good once it is overdue
  (`IdleScheduler.ServesExactlyWhenNamed`).
- An empty match, which a name alias for the empty string would give, makes the rebuilt text repeat
  what a longer match had redacted (`Redaction.CleanExactlyWhen`).
- Of matches that overlap without nesting, the one passed over keeps characters in the clear: in
  "Jane Doe@x.com" the e-mail address beats the name and "Jane " stays
  (`Redaction.RedactedExactlyWhenNested`, and for two matches `Redaction.PairRedactedExactlyWhen`).
- The cleanup script describes its moves as the only file mutations, both collision-free; the
  quarantine sidecar is in fact written over whatever has its name. When a run loses something that way
  is stated exactly (`InboxCleanup.CleanupConserves`, and for one move
  `InboxCleanup.QuarantineKeepsExactlyWhen`).
- Text in front of the stamp that already carries a marker, or the beginning of one, wins over it, and
  an empty doc-id is never recovered (`DocIdMarker.RecoveredExactlyWhen`).

## Model

| member | source | states |
|---|---|---|
| DraftQueueSafety.AtMostOneUnfinishedBatch | src/minni/afm_writer.py:1742-1941 | In every reachable state of every run, crashes included, two queued or still-being-written jobs of one pass are the same job. |
| DraftQueueSafety.NoPassIsWedged | src/minni/afm_writer.py:1661-1707 | An unset in-flight event with no queued or running job behind it has a held decision set, in memory and in a readable sidecar. |
| DraftQueueSafety.HeldUntilDischarged | src/minni/afm_writer.py:1759-1996 | Once a decision set is held in a readable sidecar, a new batch of its pass is queued only after a re-apply of that very decision set that left nothing open: every truthful report of it has no error, and nothing still proposed or all made final or none. However many crashes, restarts and retries lie between. |
| LifecycleReport.VerdictTells | src/minni/afm_writer.py:1483-1523 | Against any effect the report tells truthfully: an apply is complete exactly when it is settled, no error and nothing left open, or, without a list of what is left, none or all of a set without repeats made final; it did work exactly when some decision was made final. |
| LifecycleReport.HeldUnlessComplete | src/minni/afm_writer.py:1493-1523 | The same for the hold: it is dropped exactly for settled decisions, a handler that raises never drops it, and one that leaves no report always does. |
| LifecycleReport.CompleteLeavesNothing | src/minni/afm_writer.py:1498-1523 | A complete apply leaves nothing open, whatever the handler did, as long as its report is true. |
| DraftQueueSafety.OwedStays | src/minni/afm_writer.py:1857-1996 | One step at a time: a hold that the step does not discharge is still recorded afterwards, and the step queued no batch of that pass. |
| DraftQueueSafety.MemoryMirrorsSidecar | src/minni/afm_writer.py:346-385 | Between critical sections of a hydrated process, memory and a readable sidecar hold the same decision sets. |
| DraftQueueSafety.RestartRestoresHolds | src/minni/afm_writer.py:543-573 | After a crash the first submission brings back exactly the decision sets of the sidecar, and is not queued if its own pass is among them. |
| DraftQueueSafety.RestartOnUnreadableRefusesAll | src/minni/afm_writer.py:1759-1777 | From the first restart on an unreadable sidecar every state of the run refuses every submission: nothing is held, queued or in flight. |
| DraftQueueSafety.UnreadableForGood | src/minni/afm_writer.py:360-430 | No step of any run makes an unreadable sidecar readable again. |
| DraftQueueSafety.HeldPassCanRecover | src/minni/afm_writer.py:1781-1820 | A submission with a handler to a held pass re-applies that very decision set, unless another call holds the claim. |
| DraftQueueSafety.CompleteReapplyFreesPass | src/minni/afm_writer.py:1908-1941 | After a complete re-apply the hold is gone from memory and sidecar, and only a batch queued by that same section leaves the event unset. |
| DraftQueueSafety.LandedOutcomeHasOneOwner | src/minni/afm_writer.py:2000-2037 | When a landed batch with decisions is over, exactly one of the waiter's caller and the worker owns them if and only if somebody waited; without waiting nobody does. |
| DraftQueueSafety.FailedOutcomeHasOneWitness | src/minni/afm_writer.py:1676-1691 | When a failed batch is over it was either raised to its waiter or counted as unrecovered, exactly one of the two, if and only if somebody waited. |
| DraftQueueSafety.CountersAreExact | src/minni/afm_writer.py:1683-1691 | The timeout and unrecovered counters equal the number of such jobs, and no waiter ever finds its event set with nothing behind it. |
| DraftQueueSafety.EveryStateSound | src/minni/afm_writer.py:1742-2037 | Every state of every run satisfies the whole invariant of jobs, queue, worker, events, claims, sidecar and counters. |
| DraftQueueSafety.NobodyIsStuck | src/minni/afm_writer.py:1544-2037 | In every reachable state the worker has the next section of its batch open, whatever a handler answers, an idle worker can take the head of the queue, and so can every caller in the middle of its call go on. |
| DraftQueueSafety.WorkerAdvances | src/minni/afm_writer.py:1661-1716 | Each section of the worker brings its batch nearer to its end, four at most, and nothing but a crash else moves it: no batch is left half done. |
| DraftQueueInvariant.StepKeeps | src/minni/afm_writer.py:1742-2037 | Every step of submitters, waiters, worker, status sampler, crash and sidecar corruption keeps that invariant. |
| DraftQueue.Enqueue | src/minni/afm_writer.py:1838-1855 | A put on a queue that is not full records this job as the pass's in-flight entry; a full queue only drops and counts it. |
| DraftQueue.SetPriorEvent | src/minni/afm_writer.py:1910-1912 | Afterwards the pass's recorded event is not unset, and nothing but that event has changed. |
| DraftWriter.Writer.HydratePending | src/minni/afm_writer.py:543-573 | The loop over the sidecar's entries: in-memory holds win, all others are added; false and no change when it cannot be read. |
| DraftWriter.Writer.PutNoWait | src/minni/afm_writer.py:1838-1855 | The in-place put and drop policy are the specified enqueue step. |
| DraftWriter.Writer.RecordHold | src/minni/afm_writer.py:1564-1569 | A held decision set goes into memory and the sidecar in one section, and is counted. |
| DraftWriter.Writer.Submit | src/minni/afm_writer.py:1759-1855 | The first section of a submission, branch by branch, is the specified step, and like every section below it keeps the invariant of the transition system. |
| DraftWriter.SubmitToHeld | src/minni/afm_writer.py:1781-1820 | A submission to a held pass: whoever finds it unclaimed and has or finds a handler takes the held set, anyone else is refused, and nothing is queued. |
| DraftWriter.SubmitToFree | src/minni/afm_writer.py:1821-1855 | A submission to a pass that is not held: refused while the event of its last batch is unset, dropped and counted when 256 jobs are queued, otherwise queued last. |
| DraftWriter.TimeOutTells | src/minni/afm_writer.py:2000-2034 | A wait that expires counts as a timeout, and defers the decisions, only without an outcome; with one the caller gets it. |
| DraftWriter.Writer.JudgeReapply | src/minni/afm_writer.py:1859-1983 | The section after a re-apply (raised, partial, complete with work, complete without) is the specified step, and the set stays held unless a truthful report shows its decisions settled. |
| DraftWriter.Writer.ReleaseClaim | src/minni/afm_writer.py:1994-1996 | The final section drops the re-apply claim and nothing else. |
| DraftWriter.Writer.TimeOutWaiter | src/minni/afm_writer.py:2000-2034 | A waiter whose wait expired decides under the lock: a batch already done is returned or raised, otherwise the timeout is counted and the decisions are deferred. |
| DraftWriter.Writer.ObserveOutcome | src/minni/afm_writer.py:2035-2037 | A waiter whose event was set raises the error or returns the result the worker left. |
| DraftWriter.Writer.TakeNext | src/minni/afm_writer.py:1710-1716 | The worker takes the oldest queued job. |
| DraftWriter.Writer.ReportBatch | src/minni/afm_writer.py:1665-1677 | The outcome is recorded before the worker takes any lock. |
| DraftWriter.Writer.ClaimDeferred | src/minni/afm_writer.py:1544-1578 | The claim section of a deferred apply is the specified step; the handler runs exactly when it says so. |
| DraftWriter.Writer.JudgeDeferred | src/minni/afm_writer.py:1579-1658 | The outcome section: settled decisions clear memory and sidecar together, anything else records the hold in both. |
| DraftWriter.Writer.CountFailedBatch | src/minni/afm_writer.py:1676-1691 | A failure is counted as unrecovered exactly when its waiter has left. |
| DraftWriter.CountFailureTells | src/minni/afm_writer.py:1676-1691 | Every failed batch counts as a write failure, and as an unrecovered one when its waiter has left. |
| DraftWriter.Writer.FinishBatch | src/minni/afm_writer.py:1696-1707 | The event is set unless the pass is held. |
| BatchLedgerSafety.CrashConsistent | src/minni/afm_writer.py:1377-1480 | Whatever atomic write a batch dies after, every page with a page id has a ledger row, every row that says written has its page, ids and paths stay one to one, and nothing on disk was rewritten; notes without an id may be anywhere else. |
| BatchLedgerSafety.RerunsLandOnce | src/minni/afm_writer.py:1392-1436 | After any number of attempts that crashed anywhere within the day, a completed rerun leaves exactly the pages of one uninterrupted attempt: one per draft that is not forged, no page rewritten. |
| BatchLedgerSafety.CompleteConsistent | src/minni/afm_writer.py:1437-1468 | The flip keeps all of that whatever other batches appended in the meantime. |
| BatchLedgerSafety.OtherRunsSurvive | src/minni/afm_writer.py:1443-1468 | The runs of every other trace that the reload found survive the flip, in order; if the ledger is torn, those known before it do. |
| BatchLedgerSafety.OtherRunsSurviveReruns | src/minni/afm_writer.py:1392-1468 | So does every ledger keep them through any number of attempts, complete or crashed anywhere, on any days. |
| BatchLedgerSafety.LandedSound | src/minni/afm_writer.py:1354-1374 | A page id counts as landed exactly when some row of the day names its page on disk. |
| BatchLedgerSafety.LandedIsLast | src/minni/afm_writer.py:1354-1374 | Of several rows of the day with one id and a page on disk, a batch takes over the last one. |
| BatchLedgerSafety.PathTellsIdTail | src/minni/afm_writer.py:1186 | Drafts of one day, section and slug with ids of six characters or more have one path exactly when the last six characters agree. |
| BatchLedgerSafety.FlipReplaces | src/minni/afm_writer.py:1453-1464 | The flip puts the final run where the first run stands that agrees with our own in trace, second and page ids, or behind all; every other run keeps its place. |
| BatchLedgerSafety.CompletedLedgerIs | src/minni/afm_writer.py:1409-1468 | If no earlier record agrees with the batch in trace, second and page ids, a completed attempt leaves the records it found, its own final run and whatever others appended behind it: no pending copy stays. |
| BatchLedgerSafety.EarlierRecordsSurviveReruns | src/minni/afm_writer.py:1392-1468 | Earlier records of the batch itself, of a second that no attempt has, survive any number of attempts, complete or crashed anywhere, on any days, in order. |
| BatchLedgerSafety.LandFirstAdds | src/minni/afm_writer.py:1420-1436 | Landing only adds pages, each at the path of a draft that is neither forged nor known. |
| BatchLedgerSafety.CrashLeavesStuckPending | src/minni/afm_writer.py:1409-1436 | A crash between landing a page and the flip leaves that page on disk with no row of the day that says written. |
| BatchLedgerSafety.StuckPendingExactlyWhen | src/minni/afm_writer.py:1409-1468 | For a draft that shares its id and path with nothing, those are the only crash points that leave it so: its own turn is past and the flip is not done. |
| BatchLedgerSafety.StuckPendingStays | src/minni/afm_writer.py:1397-1401 | No rerun within the day changes that: the pending row is taken over as landed and reported as not written for good. |
| BatchLedgerSafety.RowHasPageExactlyWhen | src/minni/afm_writer.py:1420-1436 | A row that a completed attempt reports has a page of its id if and only if its path was free at the draft's turn or the page there carried that id. |
| BatchLedgerSafety.SharedPathIsTheFirsts | src/minni/afm_writer.py:1420-1434 | Of drafts with one free path the first gets the page, and the later ones' rows still say written. |
| BatchLedgerSafety.CompletedPages | src/minni/afm_writer.py:1420-1436 | A completed attempt on any vault adds exactly the pages of its drafts that are neither forged nor landed by the ledger of that day. |
| BatchLedgerSafety.SecondPageExactlyWhen | src/minni/afm_writer.py:1388-1436 | On any vault, rerunning a completed batch adds a page if and only if some draft that is not forged is neither landed by the ledger of the new day nor has its page of the new day on disk; no page is rewritten. |
| BatchLedgerSafety.SameLedgerDayAddsNothing | src/minni/afm_writer.py:1388-1401 | Within the ledger day a rerun adds a page if and only if a draft without an id has no page of the new page day. |
| BatchLedgerSafety.RerunOfNewBatch | src/minni/afm_writer.py:1388-1436 | What a batch new to the vault lands, and what a rerun adds: nothing on the same ledger day, otherwise its pages of the new page day. |
| BatchLedgerSafety.SecondPageExactlyWhenDaysMove | src/minni/afm_writer.py:1385-1392 | With sections that are single directories such a rerun mints second pages if and only if both the ledger day and the page day have changed, and then one per draft that is not forged. |
| BatchWriter.LandedWikiRecords | src/minni/afm_writer.py:1354-1374 | The two nested loops compute the landed map: the last row that names a page on disk wins. |
| BatchWriter.PlanRows | src/minni/afm_writer.py:1396-1409 | The planned rows, and the rows committed before any page lands. |
| BatchWriter.Vault.LandPages | src/minni/afm_writer.py:1420-1436 | The landing loop, with the disk after each of its durable steps. |
| BatchWriter.Vault.FlipRun | src/minni/afm_writer.py:1453-1464 | The search loop replaces, in place, the first run with the trace, second and page ids of our own; all before it differ in one of these, all others stay where they are, and without such a run the final one is appended. |
| BatchWriter.Vault.WriteBatch | src/minni/afm_writer.py:1388-1468 | A torn ledger is refused untouched; otherwise the returned rows, the final disk and every disk in between are those of the specified attempt, so every crash point above is a crash point of this code, and the ledger it leaves is the one the reload found with our own run replaced. |
| Frontmatter.RestampKeepsBlock | src/minni/afm_writer.py:651-662 | Re-extracting the frontmatter from the spliced page gives exactly the rewritten block, and the body behind it is unchanged. |
| Frontmatter.RestampLeavesDraft | src/minni/afm_writer.py:1303-1307 | A rewritten block no longer reads as a draft if and only if it had one draft-status line: the substitution replaces the first only. |
| Frontmatter.SplicedMatches | src/minni/afm_writer.py:154 | Which positions of a rewritten block match the draft-status pattern: those before and behind the rewritten line as before, none inside it. |
| StatusLine.DraftMatchExactlyWhen | src/minni/afm_writer.py:154 | The matcher's answer at a position is the longest reading of the draft-status pattern there, key, blanks, quotes and line end, and none if there is none. |
| StatusLine.IsDraftExactlyWhen | src/minni/afm_writer.py:154 | A block reads as a draft exactly when some line of it is a reading of that pattern; the first such line is the one rewritten. |
| StatusLine.BlockExactlyWhen | src/minni/afm_writer.py:651-662 | The block is all up to the first closing fence behind the opening one, and there is none without both. |
| StatusLine.RestampRewrites | src/minni/afm_writer.py:1303-1307 | Read off the rewritten page by a reader of its own: the first draft-status line now carries exactly the given status, and all else, body included, is as it was. |
| DraftStatus.OneVerdictEver | src/minni/afm_writer.py:1274-1308 | Under any interleaving of sweeps, endorsements and outside edits a page gets at most one verdict, the first one stands, and an expiry is recorded only against a time that had passed. |
| DraftStatus.NobodyIsStuck | src/minni/afm_writer.py:1274-1308 | In every interleaving each actor has its next step open to it, or waits for the lock of another; one that holds the lock holds the page's present text. |
| DraftStatus.WriteDecides | src/minni/afm_writer.py:1283-1307 | An actor that has the lock and the text gives its verdict exactly when that text calls for one: a fenced draft of the loop past its expiry for a sweep, a fenced draft with the page's id for an endorsement. |
| DraftStatus.VerdictIsFinal | src/minni/afm_writer.py:2178-2196 | Once a verdict stands no sweep or endorsement changes the page again. |
| DraftStatus.LookDecides | src/minni/afm_writer.py:1256-1273 | The unlocked look sends an actor on exactly when the page, as it is then, is one for it, and changes nothing. |
| DraftStatus.VerdictRewritesStatusOnly | src/minni/afm_writer.py:1282-1307 | A verdict is written over the text re-read under the lock: read off the page, its first draft-status line now carries the actor's own word, all else is as it was, and an expiry was past by that very text. |
| DraftStatus.StepKeeps | src/minni/afm_writer.py:1274-1308 | Each look, lock, re-read, write and unlock keeps the page invariant. |
| WikiLifecycle.SweepPage | src/minni/afm_writer.py:1283-1307 | One page under its lock: rewritten exactly when fenced, a draft of the loop and past its own expiry. |
| WikiLifecycle.SweptReads | src/minni/afm_writer.py:1283-1307 | What a sweep leaves of a page: the page itself, or one that reads expired where it read draft. |
| WikiLifecycle.Wiki.ExpireStaleDrafts | src/minni/afm_writer.py:1248-1309 | The sweep rewrites every page that qualifies so that it reads "expired", leaves every other alone and returns how many it expired. |
| WikiLifecycle.Wiki.EndorseDraft | src/minni/afm_writer.py:2154-2200 | A page is found by its own frontmatter id; accept, reject and edit make that page's first draft-status line read accepted, rejected and edit_requested and change nothing else; each refusal is characterised and changes nothing. |
| WikiLifecycle.SweepIdempotent | src/minni/afm_writer.py:1248-1309 | A second sweep with the same clock changes nothing, on pages with at most one draft line. |
| WikiLifecycle.EndorsementSurvivesSweeps | src/minni/afm_writer.py:1275-1302 | An endorsed page is left as it is by every later sweep. |
| TemplateTracker.BoundedVerdict | scripts/recall_replay/build_corpus.py:80-132 | For a query later than all recorded occurrences with distinct prompt ids, the bounded entry and the full history give the same verdict if and only if the prompt is not one whose own session was forgotten with its evicted occurrence and decides. |
| TemplateTracker.FreshPromptSameVerdict | scripts/recall_replay/build_corpus.py:80-132 | So a prompt that was not recorded before is always judged as with unbounded memory. |
| TemplateTracker.EvictedPromptIsMisjudged | scripts/recall_replay/build_corpus.py:100-132 | The exception is real: a concrete stream of 17 occurrences on which the two verdicts differ. |
| TemplateTracker.NewestOfInsert | scripts/recall_replay/build_corpus.py:171-174 | Cutting to the newest occurrences before an insertion by time gives the same ring as cutting after it. |
| TemplateTracker.EarliestOfTouch | scripts/recall_replay/build_corpus.py:176-184 | Cutting to the earliest sessions before or after an update gives the same map, even when an evicted session returns. |
| TemplateTracker.RecordBounds | scripts/recall_replay/build_corpus.py:167-186 | One accepted recording keeps the entry equal to the bounded form of its history. |
| TemplateTracker.MemoryIsBounded | scripts/recall_replay/build_corpus.py:170-184 | What an entry remembers: the 16 newest of the sightings, the sessions that began first up to 8, and the time of the first sighting. |
| TemplateTracker.FullHoldsAllOccurrences | scripts/recall_replay/build_corpus.py:171-172 | The full history's list is all accepted occurrences, sorted by time. |
| TemplateTracker.FirstSeenIsLeast | scripts/recall_replay/build_corpus.py:170 | first_seen is the least time accepted since the entry was created. |
| TemplateTracker.SessionsAreFirstSightings | scripts/recall_replay/build_corpus.py:176-180 | Each session is kept with the least time of its sightings. |
| TemplateTracker.LastSeenIsNewest | scripts/recall_replay/build_corpus.py:144-151 | On a bounded entry the last-seen time is the newest time ever recorded. |
| TemplateTracker.IsScheduledTemplate | scripts/recall_replay/build_corpus.py:80-132 | The loops with their counters and early returns compute the verdict. |
| TemplateTracker.VerdictExactlyWhen | scripts/recall_replay/build_corpus.py:96-132 | The rule on any entry: three earlier occurrences of other prompts, and two hours since it was first seen or two sessions begun earlier, not counting one that this prompt opened. |
| TemplateTracker.NewPromptVerdict | scripts/recall_replay/build_corpus.py:111-132 | The rule for a new prompt on the history alone: three sightings, and a span of 7200000 ms or two sessions. |
| TemplateTracker.CountSessionsBefore | scripts/recall_replay/build_corpus.py:122-132 | The loop over session values, in any order, counts the earlier sessions less at most one that began with the prompt itself. |
| TemplateTracker.Tracker.RecordOccurrence | scripts/recall_replay/build_corpus.py:153-188 | Refused without any change exactly for a prompt id still in the ring of 16; otherwise the history grows by it, the entry stays its bounded form, and the tracker is pruned. |
| TemplateTracker.Tracker.Prune | scripts/recall_replay/build_corpus.py:190-205 | What remains are the live templates, and of more than 500 the 500 seen last by (time, hash). |
| TemplateTracker.SurvivorsArePruned | scripts/recall_replay/build_corpus.py:190-205 | In figures: at most 500 survive, each seen within 14 days, and one seen within 14 days is dropped only if 500 that come later by (time, hash) stay. |
| TemplateTracker.Tracker.Classify | scripts/recall_replay/build_corpus.py:208-249 | Judging happens before recording. For distinct prompt ids and a new prompt later than all sightings it is scheduled exactly when there are three of them or more and one is two hours older or they lie in two sessions. |
| Ordering.SortKeys | scripts/recall_replay/build_corpus.py:183 | Sorting the items by (value, key): every key once, each strictly before the next. |
| Ordering.StrLessExactlyWhen | scripts/recall_replay/build_corpus.py:183 | Strings are ordered by the first character that differs, and a proper prefix comes first. |
| Ordering.PrefixIsEarliest | scripts/recall_replay/build_corpus.py:183-184 | The first n sorted items are the n earliest entries. |
| Ordering.EarliestUnique | scripts/recall_replay/build_corpus.py:183-184 | Being the n earliest entries determines the map. |
| ListPacking.SplitList | src/minni/afm_chunking.py:131-153 | Order and items are kept, every group is within budget or a single item, and no group could also have taken the item that opens the next; no items give one empty group. |
| ListPacking.NeighboursOverflow | src/minni/afm_chunking.py:145-148 | Any two consecutive groups together exceed the budget. |
| ListPacking.GreedyIsOptimal | src/minni/afm_chunking.py:131-153 | No contiguous grouping into fitting groups, empty groups allowed, uses fewer groups. |
| TextChunking.SplitText | src/minni/afm_chunking.py:74-128 | The loop cuts windows from 0 in steps of the chunk less the overlap until one reaches the end, each of the chunk's size and extended to the first sentence end in the 20 words behind it, and renders each as its words; a blank text or one within the chunk size is returned whole. |
| TextChunking.SnapFrom | src/minni/afm_chunking.py:112-119 | How far a window is extended: to the first word in the lookahead that ends a sentence and has a word behind it. |
| TextChunking.WindowAtEndsRight | src/minni/afm_chunking.py:105-119 | A window goes on to the least word that ends a sentence among those it may look at, and is of the chunk's size if there is none or the text ends. |
| TextChunking.CutIsSliced | src/minni/afm_chunking.py:100-126 | Where every window starts and ends, in terms of the words, the chunk and the step alone. |
| TextChunking.CutCovers | src/minni/afm_chunking.py:100-126 | With a step no longer than the chunk the windows leave no word out, overlap or touch, end at the last word, and hold at most the chunk and the lookahead. |
| TextChunking.StepOf | src/minni/afm_chunking.py:164-178 | The clamp keeps every step at three quarters of the chunk or more. |
| TextChunking.EffectiveOverlap | src/minni/afm_chunking.py:164-178 | The overlap asked for, but no more than a quarter of the chunk and not below zero. |
| TextChunking.CutCount | src/minni/afm_chunking.py:100-126 | The number of windows is bounded by words, chunk and step. |
| TextChunking.HalvingTriples | src/minni/afm_chunking.py:208-211 | Halving the chunk at most triples the windows a text needs. |
| TextChunking.CallsInFigures | src/minni/afm_chunking.py:208-229 | The call bound in figures: with d halvings from the chunk to the floor, chunk < 201 * 2^d and, unless d is 0, chunk >= 201 * 2^(d-1), a piece costs at most (3^(d+1) - 1) / 2 calls. |
| TextChunking.PieceNeedsThree | src/minni/afm_chunking.py:227-230 | A piece cut at one chunk size needs at most three windows at half of it. |
| TextChunking.ChunkAndCall | src/minni/afm_chunking.py:181-233 | The recursion terminates; the results are the calls in order without the overflows that were re-split, their pieces hold every word of the text, an overflow is handed back only at the floor, and the number of calls is within the bound. |
| TextChunking.CallPiece | src/minni/afm_chunking.py:214-232 | One piece of the loop: within the calls allowed for its depth, and re-split exactly on an overflow above the floor. |
| TextChunking.CallNativeOpChunked | src/minni/afm_chunking.py:236-288 | One call and nothing chunked under budget without overflow; otherwise chunking happens exactly when the other fields fit the budget, at the chunk size clamped to the room left. |
| TextChunking.RoomFor | src/minni/afm_chunking.py:286 | The chunk size is the one asked for or the room the other fields leave, whichever is less, but at least the floor of 200. |
| Words.SplitOfJoin | src/minni/afm_chunking.py:96-121 | Splitting a text joined from words by single spaces gives those words back. |
| Words.SplitOfSpaced | src/minni/afm_chunking.py:96 | Splitting gives the words of any text, whatever whitespace stands between and around them. |
| StepUp.BenjaminiHochberg | bench/membench/stats.py:107-135 | The result at each rank is the walk's value, and for p-values it is the order-free adjustment at every index. |
| StepUp.WalkIsLeast | bench/membench/stats.py:122-130 | The walk's value at a rank is min(1, min over ranks from there up of m * p / rank). |
| StepUp.WalkIsAdjusted | bench/membench/stats.py:122-134 | For p-values the walk computes the least of 1 and m * p_k / #{p <= p_k} over all p_k >= p_i, which mentions no order. |
| StepUp.AdjustedIsUnique | bench/membench/stats.py:121 | That description fixes the value, so whichever order the sort picks the result is the same. |
| StepUp.AdjustedIsMonotone | bench/membench/stats.py:110-116 | A smaller raw p never gets a larger adjusted one, and ties are adjusted alike. |
| StepUp.AdjustedIsAtLeastRaw | bench/membench/stats.py:107-135 | Adjusting never lowers a p-value. |
| StepUp.BelowLevel | bench/membench/stats.py:237-241 | For q at most 1 the adjusted value is below q exactly when some p_k >= p_i has m * p_k / #{p <= p_k} < q. |
| StepUp.SortIndices | bench/membench/stats.py:121 | The index order is a permutation in ascending order of p. |
| StepUp.MarkFamily | bench/membench/stats.py:237-254 | Each comparison is significant exactly when its adjusted p is below q and the means differ; the winner is the higher mean, else empty. |
| StepUp.SignificantExactlyWhen | bench/membench/stats.py:237-254 | Without the adjustment: a comparison is significant exactly when its means differ and some p at least as large meets m * p < q * (the number of p-values no larger); the winner has the higher mean. |
| StepUp.SignificanceIsDownwardClosed | bench/membench/stats.py:237-244 | A pair with different means and no larger a p-value than a significant pair is significant. |
| RankingMetrics.NdcgBounds | bench/membench/metrics.py:143-165 | On distinct documents nDCG is in [0, 1], and 1 exactly when k > 0 and the first min(k, gold count) ranks are all relevant. |
| RankingMetrics.DuplicatesExceedOne | bench/membench/metrics.py:157-165 | A duplicated relevant document takes nDCG above 1, so the contract check is needed. |
| RankingMetrics.SingleRelevant | bench/membench/metrics.py:143-165 | A single relevant document scores the discount of its rank over that of the first rank. |
| RankingMetrics.MoveUpRaisesNdcg | bench/membench/metrics.py:143-165 | Moving a relevant document up within the top k never lowers nDCG, and raises it when it passes a non-relevant one. |
| RankingMetrics.SwapRaises | bench/membench/metrics.py:157-159 | Swapping a relevant document with a non-relevant one above it raises the gain; with a relevant one it does not change it. |
| RankingMetrics.DcgAtMostIdeal | bench/membench/metrics.py:154-162 | The gain is at most that of the same number of hits ranked first, with equality only if they are. |
| RankingMetrics.MetricsAgree | bench/membench/metrics.py:114-165 | On distinct documents recall and precision count the same hits, and nDCG is 0 exactly when there is none. |
| RankingMetrics.RecallAndPrecisionCount | bench/membench/metrics.py:114-140 | Recall and precision count the relevant documents among the first k, each once however often it is listed, over all relevant ones and over k; precision at 0 is 0. |
| RankingMetrics.NdcgAtK | bench/membench/metrics.py:143-165 | The two loops compute the quotient, 0 for a zero ideal; an empty gold set is an error. |
| RankingMetrics.ReciprocalRank | bench/membench/metrics.py:168-178 | The reciprocal of the first relevant rank within the top k, 0 if there is none; an empty gold set is an error. |
| RankingMetrics.AssertWellFormed | bench/membench/contract.py:261-287 | Accepted exactly when ids are in the corpus and distinct, within the cap and no banned marker was found; each rejection names the first offending rank or limit. |
| RankingMetrics.ScoreAccepted | bench/membench/contract.py:261-287 | Every accepted result scores between 0 and 1. |
| JudgeAgreement.ComputeCohenKappa | bench/membench/judge.py:270-298 | The computed value is kappa; mismatched and empty lists are the two errors. |
| JudgeAgreement.ChanceByLabel | bench/membench/judge.py:287-292 | The loop over the labels, in any order, sums to the share of equal pairs. |
| JudgeAgreement.KappaFromCounts | bench/membench/judge.py:285-298 | kappa * (n*n - M) == n*A - M for A agreements and M equal pairs, and 0 when M is n*n. |
| JudgeAgreement.KappaFromPositions | bench/membench/judge.py:285-298 | The same with the counts spelled out: A positions of equal labels, and M pairs of positions with equal labels. |
| JudgeAgreement.KappaBounds | bench/membench/judge.py:270-298 | -1 <= kappa <= 1, for any labels. |
| JudgeAgreement.KappaSymmetric | bench/membench/judge.py:270-298 | Exchanging the raters does not change kappa. |
| JudgeAgreement.KappaRelabel | bench/membench/judge.py:287-292 | Nor does renaming the labels one to one, such as swapping 0 and 1. |
| JudgeAgreement.PerfectKappa | bench/membench/judge.py:294-298 | kappa is 1 exactly when the raters agree everywhere and use at least two labels. |
| JudgeAgreement.ConstantRaterScoresZero | bench/membench/judge.py:294-297 | kappa is 0 whenever either rater is constant, the zero denominator included. |
| JudgeAgreement.CalibrateJudge | bench/membench/judge.py:324-360 | Measures agreement and kappa and passes exactly when all three thresholds clear. |
| JudgeAgreement.AssertJudgePublishable | bench/membench/judge.py:363-420 | Publishable exactly when size, configuration, agreement and kappa clear, with the order of errors; with a positive kappa threshold no constant judge or constant human subset is. |
| JudgeAgreement.AssertLayerTwo | bench/membench/runner_layer2.py:490-502 | With the shipped thresholds: at least 40 labels, agreement on at least four fifths of them, kappa at least 0.6 and a valid configuration. |
| IdleScheduler.NoStarvation | src/minni/afm_scheduler.py:49-68 | With positive intervals, a clock that does not go back and passes that return, a pass that is overdue when something runs is itself run within as many productive ticks as there are passes. |
| IdleScheduler.PickedOnceWhileWaiting | src/minni/afm_scheduler.py:56-60 | While an overdue pass waits no other pass is picked twice. |
| IdleScheduler.StartsAreSpaced | src/minni/afm_scheduler.py:53-67 | Two starts of one pass are at least its interval apart, counted from the earlier completion. |
| IdleScheduler.PickedIsUnique | src/minni/afm_scheduler.py:59-60 | At most one pass can be the pick. |
| IdleScheduler.ServesExactlyWhenNamed | src/minni/afm_scheduler.py:38-68 | From a fresh start, over every run of ticks with positive intervals, a clock that does not go back and passes that return: every tick that may run and has something due runs something, if and only if no pass has an empty name. |
| IdleScheduler.EveryPassIsServed | src/minni/afm_scheduler.py:49-68 | Where no pass has an empty name each overdue pass is run within as many free ticks as there are passes. |
| IdleScheduler.EmptyNameStops | src/minni/afm_scheduler.py:62-65 | Where one has, and is overdue, the scheduler stalls within as many free ticks, and no tick after that runs anything. |
| IdleScheduler.StalledForGood | src/minni/afm_scheduler.py:62-65 | After a free tick that had something due and ran nothing, no tick of the run ever runs anything: the empty name stays the pick. |
| IdleScheduler.Scheduler.DuePass | src/minni/afm_scheduler.py:41-60 | A pass is named only with the loop on, no long operation open and the idle time gone by since the last activity; it is the one overdue longest, the last name among equals, and none is named only if none is due. |
| IdleScheduler.Scheduler.Tick | src/minni/afm_scheduler.py:62-68 | Is one tick of those runs, under the same conditions, with the completion time of the pass noted; a pass that raises leaves everything as it was. |
| IdleScheduler.Scheduler.EndLongOp | src/minni/afm_scheduler.py:35-36 | The count of long operations never goes below zero. |
| Redaction.ChosenSpans | bench/membench/scrub.py:329-335 | Chosen spans are pairwise disjoint matches, and every other match overlaps a chosen one at least as long. |
| Redaction.ChosenPrecede | bench/membench/scrub.py:327-335 | Of overlapping matches the chosen one comes first by length, then start, then kind, as the sort has it. |
| Redaction.RedactedExactlyWhenNested | bench/membench/scrub.py:313-335 | For any matches: every selection of them is replaced whole, each matched character, if and only if they are nested wherever they overlap. |
| Redaction.NestedMatchesAreRedacted | bench/membench/scrub.py:313-335 | When overlapping matches are nested, every matched character is replaced. |
| Redaction.PairRedactedExactlyWhen | bench/membench/scrub.py:313-335 | Of two matches that overlap, all of both is replaced if and only if one lies within the other. |
| Redaction.CleanExactlyWhen | bench/membench/scrub.py:336-350 | What the rebuilt text keeps is exactly what no chosen span covers, if and only if no empty match starts where a non-empty chosen one does; otherwise it is longer. Matches that are never empty suffice. |
| Redaction.EmptyMatchRepeatsText | bench/membench/scrub.py:341-350 | With such an empty match the output holds the redacted text again. |
| Redaction.KeptIsUncovered | bench/membench/scrub.py:338-350 | Spans in order: exactly the characters outside every span are kept, in order. |
| Redaction.RebuiltByPosition | bench/membench/scrub.py:338-350 | The rebuilt text, position by position: a chosen span's replacement where it begins, nothing within it, the text elsewhere. |
| Redaction.KeepsAllUncovered | bench/membench/scrub.py:338-350 | Spans in any order: no fewer characters are kept than are uncovered. |
| Redaction.RestoreUndoes | bench/membench/scrub.py:338-351 | The original is recovered from the output, the recorded spans and the removed strings. |
| Redaction.ScrubText | bench/membench/scrub.py:329-351 | The sorts, the greedy loop and the rebuilding loop compute the chosen spans and the rebuilt text, which for matches that are never empty is, position by position, the replacement where a chosen span begins, nothing within one and the text elsewhere. |
| DocIdRename.Corpus.RenameScrubbedDocIds | bench/membench/scrub.py:410-460 | Every file keeps its content under exactly one name, files are renamed exactly where scrubbing changes the doc-id, each to a name no other file has at its turn, in sorted order. |
| DocIdRename.FindTarget | bench/membench/scrub.py:431-446 | The new name is the scrubbed one or the first free suffixed candidate. |
| DocIdRename.TargetExactly | bench/membench/scrub.py:427-446 | The scrubbed name if it is free or the file's own, otherwise the digest in front of the extension, and a number behind the digest from the second try on; the first of these that is free. |
| DocIdRename.CandidatesAreDistinct | bench/membench/scrub.py:436-445 | All candidate names of one file differ. |
| FreshNames.FindFree | bench/membench/scrub.py:441-445 | The search finds the first candidate not in use and ends. |
| FreshNames.DecimalDenotes | bench/membench/scrub.py:441-445 | Numbers in names are decimal, without leading zeros. |
| FreshNames.TakenAreFew | bench/membench/scrub.py:441-445 | Distinct names that are all in use are no more than the names in use: why the search ends. |
| DocIdMarker.DecodeUndoesEncode | bench/bisect_harness.py:96-104 | Decoding undoes encoding for every string. |
| DocIdMarker.EncodedIsClean | bench/bisect_harness.py:96-100 | An encoded doc-id has no closing bracket and no newline, and is empty only for the empty doc-id. |
| DocIdMarker.EncodeCharacters | bench/bisect_harness.py:96-100 | Encoding goes character by character: the percent sign, the closing bracket and the newline get a code, every other character stands for itself. |
| DocIdMarker.MarkContent | bench/bisect_harness.py:107-123 | The marker goes before the first line that is neither blank nor a heading, or in front of a text without one. |
| DocIdMarker.IsBodyExactlyWhen | bench/bisect_harness.py:115-117 | A body line has a character that is not whitespace, and the first such is not a number sign. |
| DocIdMarker.OnlyIndentationIsLost | bench/bisect_harness.py:115-123 | Apart from the marker, only the stamped line's indentation is lost. |
| DocIdMarker.RecoveredExactlyWhen | bench/bisect_harness.py:107-134 | The round trip, for every text, doc-id and set of valid ids: a stamped doc-id is recovered if and only if it is not empty, is valid, and the text before the stamp holds no marker, not even one left open, or one of the same doc-id first. |
| DocIdMarker.FoundExactlyWhen | bench/bisect_harness.py:126-134 | A marker prefix before the stamp that no bracket or newline follows swallows the stamp, and what is found then never decodes to the doc-id. |
| DocIdMarker.MatchAtExactlyWhen | bench/bisect_harness.py:93 | A match of the marker pattern is the prefix, one or more characters other than bracket and newline, and the bracket. |
| DocIdMarker.HeadingOnlyIsRecovered | bench/bisect_harness.py:121-123 | A text without a body line is always recovered. |
| DocIdMarker.EmptyIdIsNeverRecovered | bench/bisect_harness.py:126-134 | No text whatever yields the empty doc-id. |
| InboxCleanup.CleanupConserves | scripts/inbox_cleanup.py:552-593 | For any vault: an applied run loses and overwrites nothing, each inbox file ending in exactly one place, its own or one that was free, if and only if no quarantine sidecar of the run meets another text. With every sidecar beside its file and no sidecar-named file to quarantine that is always so, and so for the next run. |
| InboxCleanup.RunConservesExactlyWhen | scripts/inbox_cleanup.py:574-587 | The same if-and-only-if after any number of turns, for any files taken in any order: what one unsafe turn overwrites is lost for good. |
| InboxCleanup.RunAccounts | scripts/inbox_cleanup.py:526-541 | At every point of a run each name in quarantine was there at the start, is some file's place, or is a sidecar beside its file. |
| InboxCleanup.QuarantineKeepsExactlyWhen | scripts/inbox_cleanup.py:526-541 | A move to quarantine keeps what is there if and only if the sidecar's name is free or already held the same text. |
| InboxCleanup.OrphanSidecarIsOverwritten | scripts/inbox_cleanup.py:539-540 | A sidecar left without its file is overwritten by the next file of that name. |
| InboxCleanup.SecondRunMovesNothing | scripts/inbox_cleanup.py:552-593 | A second applied run with the same verdicts changes nothing and plans nothing. |
| InboxCleanup.DryRunIsThePlan | scripts/inbox_cleanup.py:580-592 | A dry run reports the files, reasons and counts of the applied run. |
| InboxCleanup.PlanLists | scripts/inbox_cleanup.py:574-587 | The moves are exactly the files that are not kept, each with its verdict, in the order of their names. |
| InboxCleanup.CountIsFiles | scripts/inbox_cleanup.py:575-577 | Each counter is the number of files with that verdict. |
| InboxCleanup.TotalIsSum | scripts/inbox_cleanup.py:572-577 | The total is the number kept plus the counts of all reasons, and the moves are the total less the kept. |
| InboxCleanup.InboxDir.ArchiveFile | scripts/inbox_cleanup.py:488-499 | The file leaves the inbox for a free name in the archive, its own if that is free. |
| InboxCleanup.InboxDir.QuarantineFile | scripts/inbox_cleanup.py:526-541 | The file leaves the inbox for a free name in the quarantine, and the sidecar is written under that name with .reason.json behind it. |
| InboxCleanup.InboxDir.Clean | scripts/inbox_cleanup.py:571-592 | The loop over one vault: verdicts, moves, counters and the list of moves, dry or applied. |
| InboxCleanup.RunCleanup | scripts/inbox_cleanup.py:544-593 | Every vault is cleaned by itself, by the rules of its own principal. |
| InboxCleanup.FreshNameIsFree | scripts/inbox_cleanup.py:493-497 | The file's own name if that is free, otherwise the first free one with a number from 1 up in front of the suffix. |

## Left out

- DraftQueueSafety.HeldUntilDischarged: holds for one vault with sidecar writes and clears that succeed; failing persists, their per-pass fragments and clears that fail are not modelled, nor several vaults sharing a pass name.
- DraftQueueSafety.LandedOutcomeHasOneOwner: when there is a waiter, that its caller then applies the decisions is not part of this model; the caller of `submit_drafts` is not modelled.
- BatchLedgerSafety.RerunsLandOnce: assumes one path per page id (no two drafts with one slug, section and id tail; what such drafts get is `RowHasPageExactlyWhen`), no foreign note at such a path, and one calendar day; what happens across days is stated separately.
- DraftStatus.OneVerdictEver: an outside edit may change a page only while nobody holds its lock, keeps its id and does not turn it back into a draft; which id the page-id pattern reads after a verdict is left open; a page without an id, for which the sweep takes no lock, is not modelled.
- Frontmatter.RestampKeepsBlock: whitespace in the pattern is ASCII whitespace, without the other Unicode spaces.
- TemplateTracker.FreshPromptSameVerdict: times are integers; entries of the wrong shape, which the code skips, cannot occur in the typed model.
- TextChunking.SplitText: sentence ends are found word by word on the lookahead, not by the regular expression on the joined text; token counts are an arbitrary function of the text.
- RankingMetrics.NdcgBounds: the logarithmic discount is any positive, strictly decreasing function.
- StepUp.BenjaminiHochberg: arithmetic is over the reals, so rounding and not-a-number p-values are not modelled; the same holds for kappa and the metrics.
- IdleScheduler.EveryPassIsServed: passes return. A pass that raises leaves its own tick without effect, but the loop of src/minni/afm_scheduler.py:74-76 catches nothing, so it ends the scheduler thread and nothing is run again; that, and how often ticks come, is not modelled.
- DocIdRename.Corpus.RenameScrubbedDocIds: directories, symbolic links, case-insensitive file systems and a new name that needs a file as its directory are not modelled; the scrubbing of a doc-id and its digest are parameters.
- DocIdMarker.RecoveredExactlyWhen: the text comes as any list of lines; which characters end a line is left to the caller.
- InboxCleanup.CleanupConserves: `classify_file` is a parameter that depends on a file's name and content and differs from vault to vault; a fixed clock, fixed rows and the principal of the vault's directory make that so.
- Lifecycle handlers and the model behind a native operation answer arbitrarily; they do not change the decision ids.
- A crash inside a critical section counts as before or after its one atomic sidecar write; fsync, temporary files, link checks and exclusive creation are not modelled.
- The expiry sweep at the start of a batch write is modelled on its own and not as part of the batch; between the commit and the flip other batches only append or the ledger is torn.
- The counter that operators reset, latency figures, audit lines, last-run times and `derive_loop_status` are left out.
- Regular expressions of the scrubber, YAML, JSON, hashing, tokenizers, SQLite and date formats are parameters or left out.
- `reduce_via_same_op`: it ends only if each reduce payload shrinks, which the code does not ensure.
- Percentiles, confidence intervals, the Wilcoxon test and refusal rates are left out: one-line formulas or library calls.
- Verification of scrubbed trees, report rendering, replay, corpus loading and command lines are left out.
