/** The batch write as the writer thread runs it, over ledger files and pages updated in place. */
module BatchWriter {
  import opened Prelude
  import opened BatchLedger
  import opened BatchLedgerSafety

  /** The disks an attempt passes through, one per atomic write it may have made. */
  ghost function AttemptTrail(d: Disk, batch: Batch, clock: Clock, found: Ledger): seq<Disk>
    requires LedgerOf(d, clock.day).Runs?
  {
    seq(|batch.drafts| + 1, i requires 0 <= i <= |batch.drafts| => AfterLanding(d, batch, clock, i))
      + [Complete(d, batch, clock, found)]
  }

  lemma TrailOfAttempt(d: Disk, batch: Batch, clock: Clock, found: Ledger)
    requires LedgerOf(d, clock.day).Runs?
    ensures AttemptTrail(d, batch, clock, found)
            == [Commit(d, batch, clock)]
             + seq(|batch.drafts|, i requires 0 <= i < |batch.drafts| =>
                 Disk(Commit(d, batch, clock).ledgers,
                     LandFirst(d.pages, batch.drafts, LandedAt(d, clock), clock, i + 1)))
             + [Complete(d, batch, clock, found)]
  {
  }

  /** `_landed_wiki_records`: the last row that names a page on disk wins. */
  method LandedWikiRecords(existing: seq<LedgerRun>, pages: map<Path, Page>) returns (landed: map<PageId, Row>)
    ensures landed == Landed(existing, pages)
  {
    landed := map[];
    for i := 0 to |existing|
      invariant landed == Landed(existing[..i], pages)
    {
      var rows := existing[i].rows;
      ghost var before := landed;
      for k := 0 to |rows|
        invariant landed == before + LandedRows(rows[..k], pages)
      {
        var row := rows[k];
        assert rows[..k + 1][..k] == rows[..k];
        if row.pageId != "" && row.path.Some? && row.path.value != "" && row.path.value in pages {
          landed := landed[row.pageId := row];
        }
      }
      assert rows[..|rows|] == rows;
      assert existing[..i + 1][..i] == existing[..i];
    }
    assert existing[..|existing|] == existing;
  }

  lemma OneMoreRow(drafts: seq<Draft>, landed: map<PageId, Row>, day: Day, i: nat)
    requires i < |drafts|
    ensures Planned(drafts[..i + 1], landed, day) == Planned(drafts[..i], landed, day) + [Plan(drafts[i], landed, day)]
    ensures Pending(drafts[..i + 1], landed, day) == Pending(drafts[..i], landed, day) +
              [if Known(drafts[i], landed) then landed[drafts[i].pageId] else Render(drafts[i], day).(written := false)]
  {
  }

  /** The rendered rows, and the rows committed before any page lands. */
  method PlanRows(drafts: seq<Draft>, landed: map<PageId, Row>, day: Day)
    returns (planned: seq<Row>, pending: seq<Row>)
    ensures planned == Planned(drafts, landed, day) && pending == Pending(drafts, landed, day)
    ensures |planned| == |pending| == |drafts| && forall i :: 0 <= i < |drafts| ==>
      var draft := drafts[i];
      if draft.pageId != "" && draft.pageId in landed then planned[i] == pending[i] == landed[draft.pageId]
      else if draft.forged then planned[i] == pending[i] == Row(draft.pageId, None, false)
      else pending[i] == planned[i].(written := false) && planned[i].written
           && planned[i] == Row(draft.pageId, Some(PathOf(draft, day)), true)
  {
    hide PathOf;
    planned, pending := [], [];
    for i := 0 to |drafts|
      invariant planned == Planned(drafts[..i], landed, day)
      invariant pending == Pending(drafts[..i], landed, day)
    {
      var draft := drafts[i];
      OneMoreRow(drafts, landed, day, i);
      hide Planned, Pending;
      if draft.pageId != "" && draft.pageId in landed {
        planned := planned + [landed[draft.pageId]];
        pending := pending + [landed[draft.pageId]];
      } else {
        var row := Render(draft, day);
        planned := planned + [row];
        pending := pending + [if row.path.Some? then row.(written := false) else row];
      }
    }
    assert drafts[..|drafts|] == drafts;
  }

  class Vault {
    var ledgers: map<Day, Ledger>
    var pages: map<Path, Page>
    /** Every disk state this vault has been through since it was opened. */
    ghost var trail: seq<Disk>

    ghost function OnDisk(): Disk
      reads this
    {
      Disk(ledgers, pages)
    }

    constructor (ledgers: map<Day, Ledger>, pages: map<Path, Page>)
      ensures OnDisk() == Disk(ledgers, pages) && trail == []
    {
      this.ledgers, this.pages, trail := ledgers, pages, [];
    }

    /** `_atomic_write_text` on the day's ledger: one durable step. */
    method WriteLedger(day: Day, runs: seq<LedgerRun>)
      modifies this
      ensures ledgers == old(ledgers)[day := Runs(runs)] && pages == old(pages)
      ensures trail == old(trail) + [OnDisk()]
    {
      ledgers := ledgers[day := Runs(runs)];
      trail := trail + [OnDisk()];
    }

    /** One turn of the landing loop: at most one durable step. */
    method LandPage(draft: Draft, row: Row, landed: map<PageId, Row>, clock: Clock)
      requires row == Plan(draft, landed, clock.pageDay)
      modifies this
      ensures pages == LandOne(old(pages), draft, landed, clock) && ledgers == old(ledgers)
      ensures trail == old(trail) + [OnDisk()]
    {
      var already := draft.pageId != "" && draft.pageId in landed;
      if !already && row.path.Some? {
        already := row.path.value in pages;
      }
      if !already && row.written && row.path.Some? && row.path.value != "" {
        pages := pages[row.path.value := Page(draft.pageId, clock.stamp)];
      }
      trail := trail + [OnDisk()];
    }

    /** The landing loop: page after page, each a durable step. */
    method LandPages(drafts: seq<Draft>, planned: seq<Row>, landed: map<PageId, Row>, clock: Clock)
      requires planned == Planned(drafts, landed, clock.pageDay)
      modifies this
      ensures ledgers == old(ledgers) && pages == LandFirst(old(pages), drafts, landed, clock, |drafts|)
      ensures trail == old(trail) + seq(|drafts|, i requires 0 <= i < |drafts| =>
                Disk(old(ledgers), LandFirst(old(pages), drafts, landed, clock, i + 1)))
    {
      for i := 0 to |drafts|
        invariant ledgers == old(ledgers) && pages == LandFirst(old(pages), drafts, landed, clock, i)
        invariant trail == old(trail) + seq(i, k requires 0 <= k < i =>
                    Disk(old(ledgers), LandFirst(old(pages), drafts, landed, clock, k + 1)))
      {
        LandPage(drafts[i], planned[i], landed, clock);
      }
    }

    /** Replace our own run in place, or append it when it is gone. */
    method FlipRun(runs: seq<LedgerRun>, own: LedgerRun, final: LedgerRun)
      returns (flipped: seq<LedgerRun>, ghost at: nat)
      ensures FlippedAt(runs, own, final, at, flipped)
      ensures flipped == Flip(runs, own, final)
    {
      var i := 0;
      hide Differs, SameRun;
      while i < |runs| && !SameRun(runs[i], own)
        invariant i <= |runs| && forall k :: 0 <= k < i ==> Differs(runs[k], own)
      {
        SameUnlessDiffers(runs[i], own);
        i := i + 1;
      }
      if i < |runs| { SameUnlessDiffers(runs[i], own); }
      FlipReplaces(runs, own, final, i);
      flipped, at := if i < |runs| then runs[i := final] else runs + [final], i;
    }

    /** The second ledger write: over what the reload found, or over the runs known before if it is torn. */
    method FlipOwnRun(day: Day, existing: seq<LedgerRun>, own: LedgerRun, final: LedgerRun, found: Ledger)
      modifies this
      ensures ledgers
              == old(ledgers)[day := Runs(if found.Torn? then existing + [final] else Flip(found.runs, own, final))]
      ensures found.Runs? ==>
                day in ledgers && ledgers[day].Runs?
                && exists at :: FlippedAt(found.runs, own, final, at, ledgers[day].runs)
      ensures pages == old(pages) && trail == old(trail) + [OnDisk()]
    {
      var flipped := existing + [final];
      hide Flip, FlippedAt;
      if found.Runs? {
        ghost var at;
        flipped, at := FlipRun(found.runs, own, final);
        assert FlippedAt(found.runs, own, final, at, flipped);
      }
      WriteLedger(day, flipped);
    }

    /**
     `_write_batch` after its expiry sweep.  `found` is what the reload before the flip sees: the
     committed ledger, possibly with runs other writers appended, or a torn file.
     */
    method WriteBatch(batch: Batch, clock: Clock, found: Ledger) returns (rows: Option<seq<Row>>)
      modifies this
      ensures old(LedgerOf(OnDisk(), clock.day)).Torn? ==>
                rows == None && OnDisk() == old(OnDisk()) && trail == old(trail)
      ensures old(LedgerOf(OnDisk(), clock.day)).Runs? ==>
                rows == Some(FinalRun(old(OnDisk()), batch, clock).rows)
                && OnDisk() == Complete(old(OnDisk()), batch, clock, found)
                && trail == old(trail) + AttemptTrail(old(OnDisk()), batch, clock, found)
      ensures old(LedgerOf(OnDisk(), clock.day)).Runs? && found.Runs? ==>
                && clock.day in ledgers && ledgers[clock.day].Runs?
                && exists at :: FlippedAt(found.runs, PendingRun(old(OnDisk()), batch, clock),
                                          FinalRun(old(OnDisk()), batch, clock), at, ledgers[clock.day].runs)
    {
      ghost var d := OnDisk();
      var ledger := if clock.day in ledgers then ledgers[clock.day] else Runs([]);
      assert ledger == LedgerOf(d, clock.day);
      if ledger.Torn? {
        return None;
      }
      AttemptUnfolds(d, batch, clock, found);
      hide Landed, Pending, Planned, LandFirst, Flip, AttemptTrail, Complete, FinalRun, LedgerOf;
      var existing := ledger.runs;
      var landed := LandedWikiRecords(existing, pages);
      var planned, pending := PlanRows(batch.drafts, landed, clock.pageDay);
      var own := LedgerRun(batch.traceId, clock.createdAt, pending);
      WriteLedger(clock.day, existing + [own]);
      LandPages(batch.drafts, planned, landed, clock);
      FlipOwnRun(clock.day, existing, own, own.(rows := planned), found);
      rows := Some(planned);
      ghost var committed := d.ledgers[clock.day := Runs(existing + [own])];
      Associate(old(trail), Disk(committed, d.pages),
        seq(|batch.drafts|, i requires 0 <= i < |batch.drafts| =>
          Disk(committed, LandFirst(d.pages, batch.drafts, landed, clock, i + 1))), Disk(ledgers, pages));
    }
  }

  lemma Associate(a: seq<Disk>, b: Disk, c: seq<Disk>, d: Disk)
    ensures a + [b] + c + [d] == a + ([b] + c + [d])
  {
  }

  /** What an attempt comes to, in terms of the disk it starts from. */
  lemma AttemptUnfolds(d: Disk, batch: Batch, clock: Clock, found: Ledger)
    requires LedgerOf(d, clock.day).Runs?
    ensures var existing := LedgerOf(d, clock.day).runs;
      var landed := Landed(existing, d.pages);
      var own := LedgerRun(batch.traceId, clock.createdAt, Pending(batch.drafts, landed, clock.pageDay));
      var final := own.(rows := Planned(batch.drafts, landed, clock.pageDay));
      var committed := d.ledgers[clock.day := Runs(existing + [own])];
      var pages := LandFirst(d.pages, batch.drafts, landed, clock, |batch.drafts|);
      var flipped := Runs(if found.Torn? then existing + [final] else Flip(found.runs, own, final));
      && FinalRun(d, batch, clock).rows == final.rows
      && Complete(d, batch, clock, found) == Disk(committed[clock.day := flipped], pages)
      && AttemptTrail(d, batch, clock, found) ==
           [Disk(committed, d.pages)]
           + seq(|batch.drafts|, i requires 0 <= i < |batch.drafts| =>
               Disk(committed, LandFirst(d.pages, batch.drafts, landed, clock, i + 1)))
           + [Disk(committed[clock.day := flipped], pages)]
  {
    TrailOfAttempt(d, batch, clock, found);
    hide Landed, Pending, Planned, LandFirst, Flip, AttemptTrail;
  }
}
