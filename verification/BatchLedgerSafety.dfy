/** Crash consistency and repeatability of the batch write. */
module BatchLedgerSafety {
  import opened Prelude
  import opened BatchLedger

  // -------------------------------------------------------------- what is promised

  ghost predicate InRuns(runs: seq<LedgerRun>, row: Row) {
    exists i :: 0 <= i < |runs| && row in runs[i].rows
  }

  ghost predicate InLedgers(d: Disk, day: Day, row: Row) {
    day in d.ledgers && d.ledgers[day].Runs? && InRuns(d.ledgers[day].runs, row)
  }

  ghost predicate HasRow(d: Disk, p: Path) {
    exists day, row :: InLedgers(d, day, row) && row.path == Some(p)
  }

  /** Every page on disk that carries a page id has a ledger row; a vault holds other notes too. */
  ghost predicate PagesLedgered(d: Disk) {
    forall p :: p in d.pages && d.pages[p].pageId != "" ==> HasRow(d, p)
  }

  /** Every row that claims to be written has its page on disk. */
  ghost predicate RowsBacked(d: Disk) {
    forall day, row :: InLedgers(d, day, row) && row.written && row.path.Some? ==> row.path.value in d.pages
  }

  /** One page path per page id, on the pages and on the day's ledger rows, and no other note there. */
  ghost predicate OnePathEach(d: Disk, day: Day, pathOf: PageId -> Path) {
    && (forall x, y :: pathOf(x) == pathOf(y) ==> x == y)
    && (forall p :: p in d.pages && d.pages[p].pageId != "" ==> p == pathOf(d.pages[p].pageId))
    && (forall x :: x != "" && pathOf(x) in d.pages ==> d.pages[pathOf(x)].pageId == x)
    && (forall row :: InLedgers(d, day, row) && row.path.Some? ==>
          row.pageId != "" && row.path.value != "" && row.path.value == pathOf(row.pageId))
  }

  predicate BatchPaths(batch: Batch, pageDay: Day, pathOf: PageId -> Path) {
    forall draft :: draft in batch.drafts ==> draft.pageId != "" && PathOf(draft, pageDay) == pathOf(draft.pageId)
  }

  ghost predicate Consistent(d: Disk, batch: Batch, clock: Clock, pathOf: PageId -> Path) {
    && LedgerOf(d, clock.day).Runs?
    && PagesLedgered(d) && RowsBacked(d) && OnePathEach(d, clock.day, pathOf)
    && BatchPaths(batch, clock.pageDay, pathOf)
  }

  /** The paths the batch owes to the vault. */
  ghost function Owed(batch: Batch, pathOf: PageId -> Path): set<Path> {
    set draft | draft in batch.drafts && !draft.forged :: pathOf(draft.pageId)
  }

  ghost predicate Kept(before: map<Path, Page>, after: map<Path, Page>) {
    forall p :: p in before ==> p in after && after[p] == before[p]
  }

  // ------------------------------------------------------------------- landed rows

  lemma {:induction false} LandedRowsSound(rows: seq<Row>, pages: map<Path, Page>)
    ensures forall id :: id in LandedRows(rows, pages) ==>
              LandedRows(rows, pages)[id] in rows && LandedRows(rows, pages)[id].pageId == id
              && Lands(LandedRows(rows, pages)[id], pages)
    ensures forall row :: row in rows && Lands(row, pages) ==> row.pageId in LandedRows(rows, pages)
  {
    if rows != [] {
      var n := |rows| - 1;
      LandedRowsSound(rows[..n], pages);
      assert rows == rows[..n] + [rows[n]];
    }
  }

  /** The row names a page on disk and carries this id. */
  ghost predicate LandsAs(row: Row, id: PageId, pages: map<Path, Page>) {
    row.pageId == id != "" && row.path.Some? && row.path.value != "" && row.path.value in pages
  }

  lemma {:induction false} LastRowWins(rows: seq<Row>, pages: map<Path, Page>, k: nat, id: PageId)
    requires k < |rows| && LandsAs(rows[k], id, pages)
    requires forall j :: k < j < |rows| ==> !LandsAs(rows[j], id, pages)
    ensures id in LandedRows(rows, pages) && LandedRows(rows, pages)[id] == rows[k]
  {
    var n := |rows| - 1;
    if k < n {
      LastRowWins(rows[..n], pages, k, id);
      assert !LandsAs(rows[n], id, pages);
    }
  }

  lemma LandedHasRow(rows: seq<Row>, pages: map<Path, Page>, id: PageId)
    requires id in LandedRows(rows, pages)
    ensures exists j :: 0 <= j < |rows| && LandsAs(rows[j], id, pages)
  {
    LandedRowsSound(rows, pages);
    var j :| 0 <= j < |rows| && rows[j] == LandedRows(rows, pages)[id];
    assert LandsAs(rows[j], id, pages);
  }

  lemma NoRowLands(rows: seq<Row>, pages: map<Path, Page>, id: PageId)
    requires forall j :: 0 <= j < |rows| ==> !LandsAs(rows[j], id, pages)
    ensures id !in LandedRows(rows, pages)
  {
    if id in LandedRows(rows, pages) { LandedHasRow(rows, pages, id); }
  }

  /** Of several rows of the day with one id and a page on disk, a batch takes over the last. */
  lemma {:induction false} LandedIsLast(runs: seq<LedgerRun>, pages: map<Path, Page>, i: nat, k: nat, id: PageId)
    requires i < |runs| && k < |runs[i].rows| && LandsAs(runs[i].rows[k], id, pages)
    requires forall j :: k < j < |runs[i].rows| ==> !LandsAs(runs[i].rows[j], id, pages)
    requires forall r, j :: i < r < |runs| && 0 <= j < |runs[r].rows| ==> !LandsAs(runs[r].rows[j], id, pages)
    ensures id in Landed(runs, pages) && Landed(runs, pages)[id] == runs[i].rows[k]
  {
    hide LandedRows, Landed, LandsAs;
    var n := |runs| - 1;
    LandedStep(runs, pages);
    if i == n {
      LastRowWins(runs[n].rows, pages, k, id);
    } else {
      LandedIsLast(runs[..n], pages, i, k, id);
      NoRowLands(runs[n].rows, pages, id);
    }
  }

  lemma NoRuns(pages: map<Path, Page>)
    ensures Landed([], pages) == map[] && forall row :: !InRuns([], row)
  {
  }

  lemma LandedStep(runs: seq<LedgerRun>, pages: map<Path, Page>)
    requires runs != []
    ensures var n := |runs| - 1;
      runs == runs[..n] + [runs[n]]
      && Landed(runs, pages) == Landed(runs[..n], pages) + LandedRows(runs[n].rows, pages)
  {
  }

  /** A page id is landed exactly when some row of the day names its page on disk. */
  lemma {:induction false} LandedSound(runs: seq<LedgerRun>, pages: map<Path, Page>)
    ensures forall id :: id in Landed(runs, pages) ==>
              InRuns(runs, Landed(runs, pages)[id]) && Landed(runs, pages)[id].pageId == id
              && Lands(Landed(runs, pages)[id], pages)
    ensures forall row :: InRuns(runs, row) && Lands(row, pages) ==> row.pageId in Landed(runs, pages)
  {
    if runs == [] {
      NoRuns(pages);
    } else {
      var n := |runs| - 1;
      var init, last := runs[..n], runs[n];
      LandedStep(runs, pages);
      LandedSound(init, pages);
      LandedRowsSound(last.rows, pages);
      hide InRuns, Lands, Landed, LandedRows;
      forall id | id in Landed(runs, pages)
        ensures InRuns(runs, Landed(runs, pages)[id])
      {
        InAppended(init, last, Landed(runs, pages)[id]);
      }
      forall row | InRuns(runs, row) && Lands(row, pages)
        ensures row.pageId in Landed(runs, pages)
      {
        InAppended(init, last, row);
      }
    }
  }

  // ---------------------------------------------------------------------- landing

  /** The draft lands a page of its own, at this path. */
  predicate Lander(draft: Draft, landed: map<PageId, Row>, clock: Clock, p: Path) {
    !draft.forged && !Known(draft, landed) && p == PathOf(draft, clock.pageDay)
  }

  lemma LandOneAdds(pages: map<Path, Page>, draft: Draft, landed: map<PageId, Row>, clock: Clock)
    ensures var after := LandOne(pages, draft, landed, clock);
      && Kept(pages, after)
      && (forall p :: p in after && p !in pages ==>
            Lander(draft, landed, clock, p) && after[p] == Page(draft.pageId, clock.stamp))
      && (!draft.forged && !Known(draft, landed) ==> PathOf(draft, clock.pageDay) in after)
  {
    assert PathOf(draft, clock.pageDay) != "";
  }

  /** Landing only adds pages, each at the path of a draft that is neither forged nor known. */
  lemma {:induction false} LandFirstAdds(
      pages: map<Path, Page>, drafts: seq<Draft>, landed: map<PageId, Row>, clock: Clock, n: nat)
    requires n <= |drafts|
    ensures var after := LandFirst(pages, drafts, landed, clock, n);
      && Kept(pages, after)
      && (forall p :: p in after && p !in pages ==>
            exists k :: 0 <= k < n && Lander(drafts[k], landed, clock, p) && after[p].pageId == drafts[k].pageId)
      && (forall p :: p in after && p !in pages ==> after[p].stamp == clock.stamp)
      && (forall k :: 0 <= k < n && !drafts[k].forged && !Known(drafts[k], landed) ==>
            PathOf(drafts[k], clock.pageDay) in after)
  {
    hide PathOf, Lander;
    if n > 0 {
      LandFirstAdds(pages, drafts, landed, clock, n - 1);
      var before := LandFirst(pages, drafts, landed, clock, n - 1);
      var after := LandFirst(pages, drafts, landed, clock, n);
      LandOneAdds(before, drafts[n - 1], landed, clock);
      forall p | p in after && p !in pages
        ensures exists k :: 0 <= k < n && Lander(drafts[k], landed, clock, p) && after[p].pageId == drafts[k].pageId
      {
        if p in before {
          var k :| 0 <= k < n - 1 && Lander(drafts[k], landed, clock, p) && before[p].pageId == drafts[k].pageId;
          assert after[p] == before[p];
        } else {
          assert Lander(drafts[n - 1], landed, clock, p);
        }
      }
    }
  }

  // ------------------------------------------------------------------------- flip

  /** The flip puts the final rows in, loses at most the run it replaces and adds nothing else. */
  lemma {:induction false} FlipRows(runs: seq<LedgerRun>, own: LedgerRun, final: LedgerRun, row: Row)
    ensures row in final.rows ==> InRuns(Flip(runs, own, final), row)
    ensures InRuns(Flip(runs, own, final), row) ==> row in final.rows || InRuns(runs, row)
    ensures InRuns(runs, row) && !InRuns(Flip(runs, own, final), row) ==>
              exists i :: 0 <= i < |runs| && SameRun(runs[i], own) && row in runs[i].rows
  {
    var f := Flip(runs, own, final);
    if runs == [] {
      assert f[0] == final;
    } else if SameRun(runs[0], own) {
      assert f[0] == final;
      assert forall i :: 0 < i < |runs| ==> f[i] == runs[i];
    } else {
      FlipRows(runs[1..], own, final, row);
      var rest := Flip(runs[1..], own, final);
      assert forall i :: 0 < i < |f| ==> f[i] == rest[i - 1];
      assert forall i :: 0 < i < |runs| ==> runs[i] == runs[1..][i - 1];
      if row in runs[0].rows { assert row in f[0].rows; }
      if i :| 0 <= i < |rest| && row in rest[i].rows { assert row in f[i + 1].rows; }
      if i :| 0 <= i < |runs[1..]| && row in runs[1..][i].rows { assert row in runs[i + 1].rows; }
    }
  }

  // ------------------------------------------------------------ which run is flipped

  /** The runs are not the same record: another trace, another second, or other page ids. */
  predicate Differs(run: LedgerRun, own: LedgerRun) {
    || run.traceId != own.traceId || run.createdAt != own.createdAt || |run.rows| != |own.rows|
    || exists k :: 0 <= k < |run.rows| && run.rows[k].pageId != own.rows[k].pageId
  }

  lemma SameUnlessDiffers(run: LedgerRun, own: LedgerRun)
    ensures SameRun(run, own) <==> !Differs(run, own)
  {
    if SameRun(run, own) {
      assert |run.rows| == |PageIds(run.rows)| == |own.rows|;
      forall k | 0 <= k < |run.rows|
        ensures run.rows[k].pageId == own.rows[k].pageId
      {
        assert PageIds(run.rows)[k] == PageIds(own.rows)[k];
      }
    }
  }

  /** `flipped` is the runs with the first one that does not differ replaced, or with `final` behind them. */
  predicate FlippedAt(runs: seq<LedgerRun>, own: LedgerRun, final: LedgerRun, at: nat, flipped: seq<LedgerRun>) {
    && at <= |runs| && (forall k :: 0 <= k < at ==> Differs(runs[k], own))
    && if at == |runs| then flipped == runs + [final] else !Differs(runs[at], own) && flipped == runs[at := final]
  }

  lemma {:induction false} FlipReplaces(runs: seq<LedgerRun>, own: LedgerRun, final: LedgerRun, at: nat)
    requires at <= |runs| && forall k :: 0 <= k < at ==> Differs(runs[k], own)
    requires at < |runs| ==> !Differs(runs[at], own)
    ensures FlippedAt(runs, own, final, at, Flip(runs, own, final))
  {
    if runs != [] {
      SameUnlessDiffers(runs[0], own);
      if at > 0 {
        hide Differs, SameRun;
        FlipReplaces(runs[1..], own, final, at - 1);
        if at < |runs| {
          assert runs[at := final] == [runs[0]] + runs[1..][at - 1 := final];
        } else {
          assert runs + [final] == [runs[0]] + (runs[1..] + [final]);
        }
      } else {
        assert runs[0 := final] == [final] + runs[1..];
      }
    }
  }

  /** The run is a record of this batch, committed in one of these seconds. */
  predicate Ours(run: LedgerRun, batch: Batch, seconds: set<int>) {
    && run.traceId == batch.traceId && run.createdAt in seconds && |run.rows| == |batch.drafts|
    && forall k :: 0 <= k < |run.rows| ==> run.rows[k].pageId == batch.drafts[k].pageId
  }

  /** All other runs, in order: the earlier records of the same batch among them. */
  function NotOurs(runs: seq<LedgerRun>, batch: Batch, seconds: set<int>): seq<LedgerRun> {
    if runs == [] then []
    else if Ours(runs[0], batch, seconds) then NotOurs(runs[1..], batch, seconds)
    else [runs[0]] + NotOurs(runs[1..], batch, seconds)
  }

  lemma {:induction false} NotOursAppend(runs: seq<LedgerRun>, run: LedgerRun, batch: Batch, seconds: set<int>)
    requires Ours(run, batch, seconds)
    ensures NotOurs(runs + [run], batch, seconds) == NotOurs(runs, batch, seconds)
  {
    if runs == [] {
      assert [] + [run] == [run] && [run][1..] == [];
    } else {
      assert (runs + [run])[1..] == runs[1..] + [run];
      NotOursAppend(runs[1..], run, batch, seconds);
    }
  }

  lemma {:induction false} FlipKeepsNotOurs(
      runs: seq<LedgerRun>, own: LedgerRun, final: LedgerRun, batch: Batch, seconds: set<int>)
    requires Ours(own, batch, seconds) && Ours(final, batch, seconds)
    ensures NotOurs(Flip(runs, own, final), batch, seconds) == NotOurs(runs, batch, seconds)
  {
    if runs == [] {
      assert [final][1..] == [];
    } else {
      SameUnlessDiffers(runs[0], own);
      if SameRun(runs[0], own) {
        assert ([final] + runs[1..])[1..] == runs[1..];
      } else {
        FlipKeepsNotOurs(runs[1..], own, final, batch, seconds);
        assert Flip(runs, own, final)[1..] == Flip(runs[1..], own, final);
      }
    }
  }

  lemma AttemptIsOurs(d: Disk, batch: Batch, clock: Clock, seconds: set<int>)
    requires LedgerOf(d, clock.day).Runs? && clock.createdAt in seconds
    ensures Ours(PendingRun(d, batch, clock), batch, seconds) && Ours(FinalRun(d, batch, clock), batch, seconds)
  {
    LandedSound(Existing(d, clock.day), d.pages);
  }

  lemma OwnIsFirst(existing: seq<LedgerRun>, own: LedgerRun, extra: seq<LedgerRun>)
    requires forall run :: run in existing ==> Differs(run, own)
    ensures var found := existing + [own] + extra;
      found[|existing|] == own && !Differs(own, own) && forall k :: 0 <= k < |existing| ==> Differs(found[k], own)
  {
    hide Differs;
    SameUnlessDiffers(own, own);
    var found := existing + [own] + extra;
    assert forall k :: 0 <= k < |existing| ==> found[k] in existing;
  }

  /**
   A completed attempt whose second no earlier record of the batch has leaves the ledger it found with
   its own final run behind it: the run it committed is the one replaced, so no pending copy stays.
   */
  lemma CompletedLedgerIs(d: Disk, batch: Batch, clock: Clock, extra: seq<LedgerRun>)
    requires LedgerOf(d, clock.day).Runs?
    requires forall run :: run in Existing(d, clock.day) ==> Differs(run, PendingRun(d, batch, clock))
    ensures var t := Complete(d, batch, clock, Runs(Existing(d, clock.day) + [PendingRun(d, batch, clock)] + extra));
            t.ledgers == d.ledgers[clock.day := Runs(Existing(d, clock.day) + [FinalRun(d, batch, clock)] + extra)]
  {
    hide Flip, PendingRun, FinalRun, LandFirst, Landed;
    var existing, own, final := Existing(d, clock.day), PendingRun(d, batch, clock), FinalRun(d, batch, clock);
    var found := existing + [own] + extra;
    OwnIsFirst(existing, own, extra);
    FlipReplaces(found, own, final, |existing|);
    assert found[|existing| := final] == existing + [final] + extra;
    assert Complete(d, batch, clock, Runs(found)).ledgers
           == Commit(d, batch, clock).ledgers[clock.day := Runs(Flip(found, own, final))];
  }

  /** The runs of every other trace, in order. */
  function Others(runs: seq<LedgerRun>, traceId: string): seq<LedgerRun> {
    if runs == [] then []
    else if runs[0].traceId == traceId then Others(runs[1..], traceId)
    else [runs[0]] + Others(runs[1..], traceId)
  }

  lemma {:induction false} OthersAppend(runs: seq<LedgerRun>, more: seq<LedgerRun>, traceId: string)
    ensures Others(runs + more, traceId) == Others(runs, traceId) + Others(more, traceId)
  {
    if runs == [] {
      assert runs + more == more;
    } else {
      assert (runs + more)[1..] == runs[1..] + more;
      OthersAppend(runs[1..], more, traceId);
    }
  }

  lemma {:induction false} FlipKeepsOthers(runs: seq<LedgerRun>, own: LedgerRun, final: LedgerRun)
    requires final.traceId == own.traceId
    ensures Others(Flip(runs, own, final), own.traceId) == Others(runs, own.traceId)
  {
    if runs != [] {
      if SameRun(runs[0], own) {
        assert ([final] + runs[1..])[1..] == runs[1..];
      } else {
        FlipKeepsOthers(runs[1..], own, final);
        assert Flip(runs, own, final)[1..] == Flip(runs[1..], own, final);
      }
    }
  }

  /** Whatever the reload finds, the runs of every other trace found there survive the flip, in order. */
  lemma OtherRunsSurvive(d: Disk, batch: Batch, clock: Clock, found: Ledger)
    requires LedgerOf(d, clock.day).Runs?
    ensures var kept := if found.Torn? then Existing(d, clock.day) else found.runs;
            Others(FlipLedger(d, batch, clock, found).runs, batch.traceId) == Others(kept, batch.traceId)
  {
    var final := FinalRun(d, batch, clock);
    if found.Torn? {
      OthersAppend(Existing(d, clock.day), [final], batch.traceId);
    } else {
      FlipKeepsOthers(found.runs, PendingRun(d, batch, clock), final);
    }
  }

  // ------------------------------------------------------------- crash consistency

  lemma PendingSound(d: Disk, batch: Batch, clock: Clock, pathOf: PageId -> Path, k: nat)
    requires Consistent(d, batch, clock, pathOf) && k < |batch.drafts|
    ensures var pending, final := PendingRun(d, batch, clock).rows[k], FinalRun(d, batch, clock).rows[k];
      && pending.pageId == final.pageId == batch.drafts[k].pageId && pending.path == final.path
      && (final.path.Some? ==> final.path.value == pathOf(final.pageId))
      && (pending.written && pending.path.Some? ==> pending.path.value in d.pages)
      && (final.path.None? ==> batch.drafts[k].forged && !Known(batch.drafts[k], LandedAt(d, clock)))
  {
    LandedSound(Existing(d, clock.day), d.pages);
    var draft := batch.drafts[k];
    if Known(draft, LandedAt(d, clock)) {
      var row := LandedAt(d, clock)[draft.pageId];
      if clock.day in d.ledgers {
        assert InLedgers(d, clock.day, row);
      }
    }
  }

  lemma InAppended(runs: seq<LedgerRun>, own: LedgerRun, row: Row)
    ensures InRuns(runs + [own], row) <==> InRuns(runs, row) || row in own.rows
  {
    var all := runs + [own];
    if i :| 0 <= i < |runs| && row in runs[i].rows { assert row in all[i].rows; }
    if row in own.rows { assert row in all[|runs|].rows; }
  }

  /** The rows of the ledgers once the batch is committed: those there before, and its own. */
  lemma CommittedRows(d: Disk, batch: Batch, clock: Clock, day: Day, row: Row)
    requires LedgerOf(d, clock.day).Runs?
    ensures InLedgers(Commit(d, batch, clock), day, row) <==>
              InLedgers(d, day, row) || (day == clock.day && row in PendingRun(d, batch, clock).rows)
  {
    if day == clock.day {
      InAppended(Existing(d, day), PendingRun(d, batch, clock), row);
      if day !in d.ledgers { assert !InRuns([], row); }
    }
  }

  lemma LandingPages(d: Disk, batch: Batch, clock: Clock, pathOf: PageId -> Path, n: nat, p: Path)
    requires Consistent(d, batch, clock, pathOf) && n <= |batch.drafts|
    requires p in AfterLanding(d, batch, clock, n).pages
    ensures var e := AfterLanding(d, batch, clock, n);
      && (e.pages[p].pageId != "" ==> HasRow(e, p) && p == pathOf(e.pages[p].pageId))
      && (forall x :: x != "" && p == pathOf(x) ==> e.pages[p].pageId == x)
  {
    var e, landed, own := AfterLanding(d, batch, clock, n), LandedAt(d, clock), PendingRun(d, batch, clock);
    LandFirstAdds(d.pages, batch.drafts, landed, clock, n);
    hide PathOf;
    if p in d.pages && d.pages[p].pageId == "" {
    } else if p in d.pages {
      assert HasRow(d, p);
      var day, row :| InLedgers(d, day, row) && row.path == Some(p);
      CommittedRows(d, batch, clock, day, row);
      assert InLedgers(e, day, row);
    } else {
      var k :| 0 <= k < n && Lander(batch.drafts[k], landed, clock, p) && e.pages[p].pageId == batch.drafts[k].pageId;
      assert batch.drafts[k] in batch.drafts;
      CommittedRows(d, batch, clock, clock.day, own.rows[k]);
      assert own.rows[k].path == Some(p) && InLedgers(e, clock.day, own.rows[k]);
    }
  }

  lemma LandingRows(d: Disk, batch: Batch, clock: Clock, pathOf: PageId -> Path, n: nat, day: Day, row: Row)
    requires Consistent(d, batch, clock, pathOf) && n <= |batch.drafts|
    requires InLedgers(AfterLanding(d, batch, clock, n), day, row)
    ensures row.written && row.path.Some? ==> row.path.value in AfterLanding(d, batch, clock, n).pages
    ensures day == clock.day && row.path.Some? ==>
              row.pageId != "" && row.path.value != "" && row.path.value == pathOf(row.pageId)
  {
    var own := PendingRun(d, batch, clock);
    LandFirstAdds(d.pages, batch.drafts, LandedAt(d, clock), clock, n);
    hide PathOf;
    assert InLedgers(Commit(d, batch, clock), day, row);
    CommittedRows(d, batch, clock, day, row);
    if !InLedgers(d, day, row) {
      var k :| 0 <= k < |own.rows| && row == own.rows[k];
      PendingSound(d, batch, clock, pathOf, k);
      assert batch.drafts[k] in batch.drafts;
      PathNonEmpty(batch.drafts[k], clock.pageDay);
    }
  }

  /** The disk after a commit and some landings keeps every promise: a crash there is harmless. */
  lemma LandingConsistent(d: Disk, batch: Batch, clock: Clock, pathOf: PageId -> Path, n: nat)
    requires Consistent(d, batch, clock, pathOf) && n <= |batch.drafts|
    ensures Consistent(AfterLanding(d, batch, clock, n), batch, clock, pathOf)
    ensures Kept(d.pages, AfterLanding(d, batch, clock, n).pages)
  {
    var e := AfterLanding(d, batch, clock, n);
    LandFirstAdds(d.pages, batch.drafts, LandedAt(d, clock), clock, n);
    hide PathOf, HasRow, InLedgers, LandFirst;
    forall p | p in e.pages
      ensures e.pages[p].pageId != "" ==> HasRow(e, p) && p == pathOf(e.pages[p].pageId)
      ensures forall x :: x != "" && p == pathOf(x) ==> e.pages[p].pageId == x
    {
      LandingPages(d, batch, clock, pathOf, n, p);
    }
    forall day, row | InLedgers(e, day, row)
      ensures row.written && row.path.Some? ==> row.path.value in e.pages
      ensures day == clock.day && row.path.Some? ==>
                row.pageId != "" && row.path.value != "" && row.path.value == pathOf(row.pageId)
    {
      LandingRows(d, batch, clock, pathOf, n, day, row);
    }
  }

  lemma PathNonEmpty(draft: Draft, day: Day)
    ensures PathOf(draft, day) != ""
  {
  }

  /** Runs another batch may append between this batch's commit and its flip. */
  ghost predicate Foreign(extra: seq<LedgerRun>, batch: Batch, d: Disk, pathOf: PageId -> Path) {
    && (forall i :: 0 <= i < |extra| ==> extra[i].traceId != batch.traceId)
    && (forall row :: InRuns(extra, row) && row.path.Some? ==>
          row.pageId != "" && row.path.value != "" && row.path.value == pathOf(row.pageId)
          && (row.written ==> row.path.value in d.pages))
  }

  function Found(d: Disk, batch: Batch, clock: Clock, extra: seq<LedgerRun>): seq<LedgerRun>
    requires LedgerOf(d, clock.day).Runs?
  {
    Existing(d, clock.day) + [PendingRun(d, batch, clock)] + extra
  }

  lemma InFound(d: Disk, batch: Batch, clock: Clock, extra: seq<LedgerRun>, row: Row)
    requires LedgerOf(d, clock.day).Runs?
    ensures InRuns(Found(d, batch, clock, extra), row) <==>
              InLedgers(d, clock.day, row) || row in PendingRun(d, batch, clock).rows || InRuns(extra, row)
  {
    var head := Existing(d, clock.day) + [PendingRun(d, batch, clock)];
    InAppended(Existing(d, clock.day), PendingRun(d, batch, clock), row);
    var all := head + extra;
    if i :| 0 <= i < |head| && row in head[i].rows { assert row in all[i].rows; }
    if i :| 0 <= i < |extra| && row in extra[i].rows { assert row in all[|head| + i].rows; }
    if i :| 0 <= i < |all| && row in all[i].rows {
      if i < |head| { assert row in head[i].rows; } else { assert row in extra[i - |head|].rows; }
    }
    if clock.day !in d.ledgers { assert !InRuns([], row); }
  }

  /** A run the flip may replace names no page that the final run does not name too. */
  lemma ReplacedRowCovered(d: Disk, batch: Batch, clock: Clock, pathOf: PageId -> Path, run: LedgerRun, k: nat)
    requires Consistent(d, batch, clock, pathOf)
    requires SameRun(run, PendingRun(d, batch, clock)) && k < |run.rows|
    requires run in Existing(d, clock.day) || run == PendingRun(d, batch, clock)
    requires run.rows[k].path.Some? && run.rows[k].path.value == pathOf(run.rows[k].pageId)
    requires run.rows[k].path.value in AfterLanding(d, batch, clock, |batch.drafts|).pages
    ensures exists m :: 0 <= m < |batch.drafts| && FinalRun(d, batch, clock).rows[m].path == run.rows[k].path
  {
    var own, final, landed := PendingRun(d, batch, clock), FinalRun(d, batch, clock), LandedAt(d, clock);
    var row := run.rows[k];
    assert PageIds(run.rows)[k] == PageIds(own.rows)[k];
    assert |run.rows| == |PageIds(run.rows)| == |PageIds(own.rows)| == |batch.drafts|;
    PendingSound(d, batch, clock, pathOf, k);
    assert batch.drafts[k] in batch.drafts;
    if final.rows[k].path.None? {
      LandFirstAdds(d.pages, batch.drafts, landed, clock, |batch.drafts|);
      assert run in Existing(d, clock.day);
      hide PathOf, SameRun;
      if row.path.value in d.pages {
        var i :| 0 <= i < |Existing(d, clock.day)| && Existing(d, clock.day)[i] == run;
        assert InRuns(Existing(d, clock.day), row);
        KnownByRow(d, batch, clock, pathOf, row);
        assert false;
      } else {
        var m :| 0 <= m < |batch.drafts| && Lander(batch.drafts[m], landed, clock, row.path.value);
        assert final.rows[m].path == row.path;
      }
    }
  }

  lemma ReplacedRunCovered(d: Disk, batch: Batch, clock: Clock, pathOf: PageId -> Path, extra: seq<LedgerRun>, row: Row)
    requires Consistent(d, batch, clock, pathOf) && Foreign(extra, batch, d, pathOf)
    requires row.path.Some? && row.path.value in AfterLanding(d, batch, clock, |batch.drafts|).pages
    requires exists i :: 0 <= i < |Found(d, batch, clock, extra)|
                         && SameRun(Found(d, batch, clock, extra)[i], PendingRun(d, batch, clock))
                         && row in Found(d, batch, clock, extra)[i].rows
    ensures exists k :: 0 <= k < |batch.drafts| && FinalRun(d, batch, clock).rows[k].path == row.path
  {
    var found, own := Found(d, batch, clock, extra), PendingRun(d, batch, clock);
    var i :| 0 <= i < |found| && SameRun(found[i], own) && row in found[i].rows;
    var n := |Existing(d, clock.day)|;
    assert i <= n;
    assert found[i] in Existing(d, clock.day) || found[i] == own;
    InFound(d, batch, clock, extra, row);
    assert InRuns(found, row);
    FoundRowSound(d, batch, clock, pathOf, row);
    var k :| 0 <= k < |found[i].rows| && found[i].rows[k] == row;
    ReplacedRowCovered(d, batch, clock, pathOf, found[i], k);
  }

  lemma FoundRowSound(d: Disk, batch: Batch, clock: Clock, pathOf: PageId -> Path, row: Row)
    requires Consistent(d, batch, clock, pathOf) && row.path.Some?
    ensures InRuns(Existing(d, clock.day), row) || row in PendingRun(d, batch, clock).rows ==>
              row.path.value == pathOf(row.pageId)
  {
    if InRuns(Existing(d, clock.day), row) {
      assert clock.day in d.ledgers;
      assert InLedgers(d, clock.day, row);
    } else if row in PendingRun(d, batch, clock).rows {
      var k :| 0 <= k < |batch.drafts| && PendingRun(d, batch, clock).rows[k] == row;
      PendingSound(d, batch, clock, pathOf, k);
    }
  }

  lemma KnownByRow(d: Disk, batch: Batch, clock: Clock, pathOf: PageId -> Path, row: Row)
    requires Consistent(d, batch, clock, pathOf) && InRuns(Existing(d, clock.day), row)
    requires row.path.Some? && row.path.value in d.pages
    ensures row.pageId != "" && row.pageId in LandedAt(d, clock)
  {
    assert clock.day in d.ledgers;
    assert InLedgers(d, clock.day, row);
    LandedSound(Existing(d, clock.day), d.pages);
  }

  lemma CompleteLedgered(d: Disk, batch: Batch, clock: Clock, pathOf: PageId -> Path, extra: seq<LedgerRun>)
    requires Consistent(d, batch, clock, pathOf) && Foreign(extra, batch, d, pathOf)
    ensures PagesLedgered(Complete(d, batch, clock, Runs(Found(d, batch, clock, extra))))
  {
    var found, own, final := Found(d, batch, clock, extra), PendingRun(d, batch, clock), FinalRun(d, batch, clock);
    var e := AfterLanding(d, batch, clock, |batch.drafts|);
    var t := Complete(d, batch, clock, Runs(found));
    LandingConsistent(d, batch, clock, pathOf, |batch.drafts|);
    hide PathOf, FinalRun, PendingRun, Found, Flip, InRuns;
    forall p | p in t.pages && t.pages[p].pageId != ""
      ensures HasRow(t, p)
    {
      assert HasRow(e, p);
      var day, row :| InLedgers(e, day, row) && row.path == Some(p);
      if day == clock.day {
        CommittedRows(d, batch, clock, day, row);
        assert InLedgers(Commit(d, batch, clock), day, row);
        InFound(d, batch, clock, extra, row);
        FlipRows(found, own, final, row);
        if !InRuns(Flip(found, own, final), row) {
          ReplacedRunCovered(d, batch, clock, pathOf, extra, row);
          var k :| 0 <= k < |batch.drafts| && final.rows[k].path == row.path;
          FlipRows(found, own, final, final.rows[k]);
          assert InLedgers(t, day, final.rows[k]);
        } else {
          assert InLedgers(t, day, row);
        }
      } else {
        assert InLedgers(t, day, row);
      }
    }
  }

  lemma CompleteRowSound(d: Disk, batch: Batch, clock: Clock, pathOf: PageId -> Path, extra: seq<LedgerRun>,
                         day: Day, row: Row)
    requires Consistent(d, batch, clock, pathOf) && Foreign(extra, batch, d, pathOf)
    requires InLedgers(Complete(d, batch, clock, Runs(Found(d, batch, clock, extra))), day, row) && row.path.Some?
    ensures row.written ==> row.path.value in Complete(d, batch, clock, Runs(Found(d, batch, clock, extra))).pages
    ensures day == clock.day ==> row.pageId != "" && row.path.value != "" && row.path.value == pathOf(row.pageId)
  {
    var found, own, final := Found(d, batch, clock, extra), PendingRun(d, batch, clock), FinalRun(d, batch, clock);
    LandFirstAdds(d.pages, batch.drafts, LandedAt(d, clock), clock, |batch.drafts|);
    hide PathOf, Found, Flip;
    if day == clock.day {
      FlipRows(found, own, final, row);
      InFound(d, batch, clock, extra, row);
      if row in final.rows {
        FinalRowSound(d, batch, clock, pathOf, row);
      } else if row in own.rows {
        var k :| 0 <= k < |batch.drafts| && own.rows[k] == row;
        FinalRowSound(d, batch, clock, pathOf, final.rows[k]);
        PendingSound(d, batch, clock, pathOf, k);
      }
    } else {
      assert InLedgers(d, day, row);
    }
  }

  /** The flip keeps every promise, whatever other batches appended meanwhile. */
  lemma CompleteConsistent(d: Disk, batch: Batch, clock: Clock, pathOf: PageId -> Path, extra: seq<LedgerRun>)
    requires Consistent(d, batch, clock, pathOf) && Foreign(extra, batch, d, pathOf)
    ensures Consistent(Complete(d, batch, clock, Runs(Found(d, batch, clock, extra))), batch, clock, pathOf)
    ensures Kept(d.pages, Complete(d, batch, clock, Runs(Found(d, batch, clock, extra))).pages)
  {
    var t := Complete(d, batch, clock, Runs(Found(d, batch, clock, extra)));
    LandingConsistent(d, batch, clock, pathOf, |batch.drafts|);
    CompleteLedgered(d, batch, clock, pathOf, extra);
    hide PathOf, Found, PagesLedgered;
    forall day, row | InLedgers(t, day, row)
      ensures row.written && row.path.Some? ==> row.path.value in t.pages
      ensures day == clock.day && row.path.Some? ==>
                row.pageId != "" && row.path.value != "" && row.path.value == pathOf(row.pageId)
    {
      if row.path.Some? {
        CompleteRowSound(d, batch, clock, pathOf, extra, day, row);
      }
    }
  }

  lemma FinalRowSound(d: Disk, batch: Batch, clock: Clock, pathOf: PageId -> Path, row: Row)
    requires Consistent(d, batch, clock, pathOf) && row in FinalRun(d, batch, clock).rows
    ensures row.path.Some? ==> row.pageId != "" && row.path.value != "" && row.path.value == pathOf(row.pageId)
    ensures row.written && row.path.Some? ==>
              row.path.value in LandFirst(d.pages, batch.drafts, LandedAt(d, clock), clock, |batch.drafts|)
  {
    var k :| 0 <= k < |batch.drafts| && FinalRun(d, batch, clock).rows[k] == row;
    PendingSound(d, batch, clock, pathOf, k);
    assert batch.drafts[k] in batch.drafts;
    PathNonEmpty(batch.drafts[k], clock.pageDay);
    LandFirstAdds(d.pages, batch.drafts, LandedAt(d, clock), clock, |batch.drafts|);
    LandedSound(Existing(d, clock.day), d.pages);
  }

  ghost predicate CrashSafe(d: Disk, batch: Batch, clock: Clock, pathOf: PageId -> Path, e: Disk) {
    Consistent(e, batch, clock, pathOf) && Kept(d.pages, e.pages)
  }

  lemma SafeLanding(d: Disk, batch: Batch, clock: Clock, pathOf: PageId -> Path, n: nat)
    requires Consistent(d, batch, clock, pathOf) && n <= |batch.drafts|
    ensures CrashSafe(d, batch, clock, pathOf, d)
    ensures CrashSafe(d, batch, clock, pathOf, AfterLanding(d, batch, clock, n))
  {
    hide PagesLedgered, RowsBacked, OnePathEach, BatchPaths, AfterLanding;
    LandingConsistent(d, batch, clock, pathOf, n);
  }

  lemma SafeFlip(d: Disk, batch: Batch, clock: Clock, pathOf: PageId -> Path)
    requires Consistent(d, batch, clock, pathOf)
    ensures CrashSafe(d, batch, clock, pathOf, Complete(d, batch, clock, Runs(Found(d, batch, clock, []))))
  {
    hide PagesLedgered, RowsBacked, OnePathEach, BatchPaths, Complete, Found;
    assert Foreign([], batch, d, pathOf);
    CompleteConsistent(d, batch, clock, pathOf, []);
  }

  lemma CutIs(d: Disk, batch: Batch, clock: Clock, k: nat)
    requires LedgerOf(d, clock.day).Runs?
    ensures CutAt(d, batch, clock, k)
            == (if k == 0 then d
                else if k <= |batch.drafts| + 1 then AfterLanding(d, batch, clock, k - 1)
                else Complete(d, batch, clock, Runs(Found(d, batch, clock, []))))
  {
    assert Found(d, batch, clock, []) == Existing(d, clock.day) + [PendingRun(d, batch, clock)];
  }

  lemma EveryCutSafe(d: Disk, batch: Batch, clock: Clock, pathOf: PageId -> Path, k: nat)
    requires Consistent(d, batch, clock, pathOf)
    ensures CrashSafe(d, batch, clock, pathOf, CutAt(d, batch, clock, k))
  {
    hide CrashSafe, AfterLanding, CutAt, Complete, Found, PagesLedgered, RowsBacked, OnePathEach, BatchPaths;
    CutIs(d, batch, clock, k);
    SafeLanding(d, batch, clock, pathOf, if 0 < k <= |batch.drafts| then k - 1 else |batch.drafts|);
    SafeFlip(d, batch, clock, pathOf);
  }

  /** At every crash point every promise holds, and nothing already on disk has been rewritten. */
  lemma CrashConsistent(d: Disk, batch: Batch, clock: Clock, pathOf: PageId -> Path, k: nat)
    requires Consistent(d, batch, clock, pathOf)
    ensures Consistent(CutAt(d, batch, clock, k), batch, clock, pathOf)
    ensures Kept(d.pages, CutAt(d, batch, clock, k).pages)
  {
    hide PagesLedgered, RowsBacked, OnePathEach, BatchPaths, CutAt, Kept;
    EveryCutSafe(d, batch, clock, pathOf, k);
  }

  // ------------------------------------------------------------------------ reruns

  /** An attempt that died after `writes` atomic writes. */
  datatype Attempt = Attempt(clock: Clock, writes: nat)

  function AfterAttempts(d: Disk, batch: Batch, attempts: seq<Attempt>): Disk
    decreases |attempts|
  {
    if attempts == [] then d
    else AfterAttempts(CutAt(d, batch, attempts[0].clock, attempts[0].writes), batch, attempts[1..])
  }

  predicate SameDay(attempts: seq<Attempt>, clock: Clock) {
    forall a :: a in attempts ==> a.clock.day == clock.day && a.clock.pageDay == clock.pageDay
  }

  /** One attempt, cut anywhere: every ledger keeps the runs of every other trace, in order. */
  lemma OtherRunsAt(d: Disk, batch: Batch, clock: Clock, k: nat, day: Day)
    requires LedgerOf(d, day).Runs?
    ensures LedgerOf(CutAt(d, batch, clock, k), day).Runs?
    ensures Others(Existing(CutAt(d, batch, clock, k), day), batch.traceId) == Others(Existing(d, day), batch.traceId)
  {
    if LedgerOf(d, clock.day).Runs? && day == clock.day && k > 0 {
      var own := PendingRun(d, batch, clock);
      OthersAppend(Existing(d, day), [own], batch.traceId);
      if k > |batch.drafts| + 1 {
        OtherRunsSurvive(d, batch, clock, Runs(Existing(d, day) + [own]));
      }
    }
  }

  /** However often a batch is attempted, on whatever days, and wherever the attempts crashed. */
  lemma {:induction false} OtherRunsSurviveReruns(d: Disk, batch: Batch, attempts: seq<Attempt>, day: Day)
    requires LedgerOf(d, day).Runs?
    ensures LedgerOf(AfterAttempts(d, batch, attempts), day).Runs?
    ensures Others(Existing(AfterAttempts(d, batch, attempts), day), batch.traceId)
            == Others(Existing(d, day), batch.traceId)
    decreases |attempts|
  {
    if attempts != [] {
      OtherRunsAt(d, batch, attempts[0].clock, attempts[0].writes, day);
      hide CutAt, Others;
      OtherRunsSurviveReruns(CutAt(d, batch, attempts[0].clock, attempts[0].writes), batch, attempts[1..], day);
    }
  }

  lemma NotOursAt(d: Disk, batch: Batch, clock: Clock, k: nat, day: Day, seconds: set<int>)
    requires LedgerOf(d, day).Runs? && clock.createdAt in seconds
    ensures LedgerOf(CutAt(d, batch, clock, k), day).Runs?
    ensures NotOurs(Existing(CutAt(d, batch, clock, k), day), batch, seconds)
            == NotOurs(Existing(d, day), batch, seconds)
  {
    if LedgerOf(d, clock.day).Runs? && day == clock.day && k > 0 {
      var own := PendingRun(d, batch, clock);
      AttemptIsOurs(d, batch, clock, seconds);
      NotOursAppend(Existing(d, day), own, batch, seconds);
      if k > |batch.drafts| + 1 {
        FlipKeepsNotOurs(Existing(d, day) + [own], own, FinalRun(d, batch, clock), batch, seconds);
      }
      hide NotOurs, Ours, Landed, LandFirst, Flip;
    }
  }

  /**
   The same for earlier records of the batch itself: whatever differs from every attempt's own run in
   trace, second or page ids is kept, in order, in the ledger of every day.
   */
  lemma {:induction false} EarlierRecordsSurviveReruns(
      d: Disk, batch: Batch, attempts: seq<Attempt>, day: Day, seconds: set<int>)
    requires LedgerOf(d, day).Runs? && forall a :: a in attempts ==> a.clock.createdAt in seconds
    ensures LedgerOf(AfterAttempts(d, batch, attempts), day).Runs?
    ensures NotOurs(Existing(AfterAttempts(d, batch, attempts), day), batch, seconds)
            == NotOurs(Existing(d, day), batch, seconds)
    decreases |attempts|
  {
    if attempts != [] {
      assert attempts[0] in attempts;
      NotOursAt(d, batch, attempts[0].clock, attempts[0].writes, day, seconds);
      hide CutAt, NotOurs;
      EarlierRecordsSurviveReruns(
        CutAt(d, batch, attempts[0].clock, attempts[0].writes), batch, attempts[1..], day, seconds);
    }
  }

  lemma {:induction false} AttemptsConsistent(
      d: Disk, batch: Batch, attempts: seq<Attempt>, clock: Clock, pathOf: PageId -> Path)
    requires Consistent(d, batch, clock, pathOf) && SameDay(attempts, clock)
    ensures Consistent(AfterAttempts(d, batch, attempts), batch, clock, pathOf)
    ensures Kept(d.pages, AfterAttempts(d, batch, attempts).pages)
    decreases |attempts|
  {
    if attempts != [] {
      assert attempts[0] in attempts;
      var e := CutAt(d, batch, attempts[0].clock, attempts[0].writes);
      CrashConsistent(d, batch, attempts[0].clock, pathOf, attempts[0].writes);
      assert Consistent(e, batch, clock, pathOf);
      AttemptsConsistent(e, batch, attempts[1..], clock, pathOf);
    }
  }

  lemma LandedPagesOwed(d: Disk, batch: Batch, clock: Clock, pathOf: PageId -> Path, n: nat)
    requires Consistent(d, batch, clock, pathOf) && n <= |batch.drafts|
    ensures AfterLanding(d, batch, clock, n).pages.Keys <= d.pages.Keys + Owed(batch, pathOf)
  {
    var landed, after := LandedAt(d, clock), AfterLanding(d, batch, clock, n).pages;
    LandFirstAdds(d.pages, batch.drafts, landed, clock, n);
    hide PathOf, PagesLedgered, RowsBacked;
    forall p | p in after && p !in d.pages
      ensures p in Owed(batch, pathOf)
    {
      var m :| 0 <= m < n && Lander(batch.drafts[m], landed, clock, p);
      assert batch.drafts[m] in batch.drafts;
    }
  }

  lemma OwedPagesLanded(d: Disk, batch: Batch, clock: Clock, pathOf: PageId -> Path)
    requires Consistent(d, batch, clock, pathOf)
    ensures Owed(batch, pathOf) <= AfterLanding(d, batch, clock, |batch.drafts|).pages.Keys
  {
    var landed, n := LandedAt(d, clock), |batch.drafts|;
    LandedSound(Existing(d, clock.day), d.pages);
    LandFirstAdds(d.pages, batch.drafts, landed, clock, n);
    hide PathOf, PagesLedgered, RowsBacked;
    forall p | p in Owed(batch, pathOf)
      ensures p in AfterLanding(d, batch, clock, n).pages
    {
      var m :| 0 <= m < n && !batch.drafts[m].forged && p == pathOf(batch.drafts[m].pageId);
      assert batch.drafts[m] in batch.drafts;
      if Known(batch.drafts[m], landed) {
        var row := landed[batch.drafts[m].pageId];
        assert clock.day in d.ledgers && InLedgers(d, clock.day, row);
      }
    }
  }

  lemma CutPages(d: Disk, batch: Batch, clock: Clock, k: nat)
    requires LedgerOf(d, clock.day).Runs?
    ensures CutAt(d, batch, clock, k).pages
            == if k == 0 then d.pages
               else AfterLanding(d, batch, clock, if k <= |batch.drafts| then k - 1 else |batch.drafts|).pages
  {
  }

  /** A completed attempt has landed what the batch owes, and nothing else is new. */
  lemma CompletePages(d: Disk, batch: Batch, clock: Clock, pathOf: PageId -> Path, k: nat)
    requires Consistent(d, batch, clock, pathOf)
    ensures CutAt(d, batch, clock, k).pages.Keys <= d.pages.Keys + Owed(batch, pathOf)
    ensures k > |batch.drafts| + 1 ==> CutAt(d, batch, clock, k).pages.Keys == d.pages.Keys + Owed(batch, pathOf)
  {
    var n := if 0 < k <= |batch.drafts| then k - 1 else |batch.drafts|;
    CutPages(d, batch, clock, k);
    LandedPagesOwed(d, batch, clock, pathOf, n);
    OwedPagesLanded(d, batch, clock, pathOf);
    LandingConsistent(d, batch, clock, pathOf, |batch.drafts|);
    hide CutAt, AfterLanding, Owed, Consistent;
  }

  lemma {:induction false} AttemptsPages(
      d: Disk, batch: Batch, attempts: seq<Attempt>, clock: Clock, pathOf: PageId -> Path)
    requires Consistent(d, batch, clock, pathOf) && SameDay(attempts, clock)
    ensures AfterAttempts(d, batch, attempts).pages.Keys <= d.pages.Keys + Owed(batch, pathOf)
    decreases |attempts|
  {
    if attempts != [] {
      assert attempts[0] in attempts;
      CrashConsistent(d, batch, attempts[0].clock, pathOf, attempts[0].writes);
      CompletePages(d, batch, attempts[0].clock, pathOf, attempts[0].writes);
      var e := CutAt(d, batch, attempts[0].clock, attempts[0].writes);
      assert Consistent(e, batch, clock, pathOf);
      AttemptsPages(e, batch, attempts[1..], clock, pathOf);
    }
  }

  /**
   Rerunning a batch within its day, however many attempts crashed and wherever, ends with the very
   pages one uninterrupted attempt would have left: exactly one per non-forged draft, at its path.
   No page that was there before is rewritten, and none that an attempt landed is landed again.
   */
  lemma RerunsLandOnce(d: Disk, batch: Batch, attempts: seq<Attempt>, clock: Clock, pathOf: PageId -> Path)
    requires Consistent(d, batch, clock, pathOf) && SameDay(attempts, clock)
    ensures var crashed := AfterAttempts(d, batch, attempts);
            var done := CutAt(crashed, batch, clock, |batch.drafts| + 2);
      && Consistent(done, batch, clock, pathOf)
      && Kept(d.pages, crashed.pages) && Kept(crashed.pages, done.pages)
      && done.pages.Keys == CutAt(d, batch, clock, |batch.drafts| + 2).pages.Keys
      && (forall draft, p :: draft in batch.drafts && !draft.forged ==>
            (p in done.pages && done.pages[p].pageId == draft.pageId <==> p == pathOf(draft.pageId)))
  {
    var n := |batch.drafts|;
    var crashed := AfterAttempts(d, batch, attempts);
    AttemptsConsistent(d, batch, attempts, clock, pathOf);
    AttemptsPages(d, batch, attempts, clock, pathOf);
    CrashConsistent(crashed, batch, clock, pathOf, n + 2);
    CompletePages(crashed, batch, clock, pathOf, n + 2);
    CompletePages(d, batch, clock, pathOf, n + 2);
    var done := CutAt(crashed, batch, clock, n + 2);
    forall draft, p | draft in batch.drafts && !draft.forged
      ensures p in done.pages && done.pages[p].pageId == draft.pageId <==> p == pathOf(draft.pageId)
    {
      if p == pathOf(draft.pageId) {
        assert p in Owed(batch, pathOf);
        assert p == pathOf(done.pages[p].pageId);
      }
    }
  }

  // -------------------------------------------------- where the promises stop short

  /** The id's page is on disk and every row of the day that names the id says it is not written. */
  ghost predicate StuckPending(d: Disk, day: Day, id: PageId) {
    && LedgerOf(d, day).Runs?
    && (exists row :: InRuns(Existing(d, day), row) && row.pageId == id && Lands(row, d.pages))
    && (forall row :: InRuns(Existing(d, day), row) && row.pageId == id ==> !row.written)
  }

  /** A crash between landing a page and the flip leaves its row pending with the page on disk. */
  lemma CrashLeavesStuckPending(d: Disk, batch: Batch, clock: Clock, k: nat, i: nat)
    requires LedgerOf(d, clock.day).Runs? && i < |batch.drafts| && i + 1 < k <= |batch.drafts| + 1
    requires !batch.drafts[i].forged && batch.drafts[i].pageId != ""
    requires forall row :: InRuns(Existing(d, clock.day), row) ==> row.pageId != batch.drafts[i].pageId
    ensures StuckPending(CutAt(d, batch, clock, k), clock.day, batch.drafts[i].pageId)
  {
    LandedSound(Existing(d, clock.day), d.pages);
    LandedRowLands(d, batch, clock, k - 1, i);
    var own := PendingRun(d, batch, clock);
    var committed := Existing(d, clock.day) + [own];
    InAppended(Existing(d, clock.day), own, own.rows[i]);
    hide InRuns, PathOf, Lands;
    forall r | InRuns(committed, r) && r.pageId == batch.drafts[i].pageId
      ensures !r.written
    {
      InAppended(Existing(d, clock.day), own, r);
      FreshRowPending(d, batch, clock, batch.drafts[i].pageId, r);
    }
  }

  lemma LandedRowLands(d: Disk, batch: Batch, clock: Clock, n: nat, i: nat)
    requires LedgerOf(d, clock.day).Runs? && i < n <= |batch.drafts|
    requires !batch.drafts[i].forged && batch.drafts[i].pageId != "" && !Known(batch.drafts[i], LandedAt(d, clock))
    ensures var row := PendingRun(d, batch, clock).rows[i];
            row in PendingRun(d, batch, clock).rows && row.pageId == batch.drafts[i].pageId
            && Lands(row, AfterLanding(d, batch, clock, n).pages)
  {
    LandFirstAdds(d.pages, batch.drafts, LandedAt(d, clock), clock, n);
    PathNonEmpty(batch.drafts[i], clock.pageDay);
  }

  lemma FreshRowPending(d: Disk, batch: Batch, clock: Clock, id: PageId, r: Row)
    requires LedgerOf(d, clock.day).Runs? && id !in LandedAt(d, clock)
    requires r in PendingRun(d, batch, clock).rows && r.pageId == id
    ensures !r.written
  {
    LandedSound(Existing(d, clock.day), d.pages);
  }

  /** ... and no rerun within the day ever reports that page written, however often it completes. */
  lemma StuckPendingStays(d: Disk, batch: Batch, clock: Clock, k: nat, id: PageId)
    requires StuckPending(d, clock.day, id)
    ensures StuckPending(CutAt(d, batch, clock, k), clock.day, id)
    ensures forall i :: 0 <= i < |batch.drafts| && batch.drafts[i].pageId == id ==>
              !FinalRun(d, batch, clock).rows[i].written
  {
    var existing, landed := Existing(d, clock.day), LandedAt(d, clock);
    LandedSound(existing, d.pages);
    assert id != "" && id in landed && !landed[id].written;
    RowsOfKnown(d, batch, clock, id);
    if 0 < k <= |batch.drafts| + 1 {
      StuckThroughLanding(d, batch, clock, k - 1, id);
    } else if k > 0 {
      StuckThroughFlip(d, batch, clock, id);
    }
  }

  lemma StuckThroughLanding(d: Disk, batch: Batch, clock: Clock, n: nat, id: PageId)
    requires StuckPending(d, clock.day, id) && n <= |batch.drafts|
    requires id != "" && id in LandedAt(d, clock) && !LandedAt(d, clock)[id].written
    ensures StuckPending(AfterLanding(d, batch, clock, n), clock.day, id)
  {
    var existing, own, e := Existing(d, clock.day), PendingRun(d, batch, clock), AfterLanding(d, batch, clock, n);
    LandFirstAdds(d.pages, batch.drafts, LandedAt(d, clock), clock, n);
    RowsOfKnown(d, batch, clock, id);
    var row :| InRuns(existing, row) && row.pageId == id && Lands(row, d.pages);
    hide InRuns, PathOf;
    InAppended(existing, own, row);
    assert InRuns(Existing(e, clock.day), row) && Lands(row, e.pages);
    forall r | InRuns(Existing(e, clock.day), r) && r.pageId == id
      ensures !r.written
    {
      InAppended(existing, own, r);
    }
  }

  lemma StuckThroughFlip(d: Disk, batch: Batch, clock: Clock, id: PageId)
    requires StuckPending(d, clock.day, id)
    requires id != "" && id in LandedAt(d, clock) && !LandedAt(d, clock)[id].written
    ensures StuckPending(CutAt(d, batch, clock, |batch.drafts| + 2), clock.day, id)
  {
    var existing, own, final := Existing(d, clock.day), PendingRun(d, batch, clock), FinalRun(d, batch, clock);
    var e, committed := CutAt(d, batch, clock, |batch.drafts| + 2), existing + [own];
    LandFirstAdds(d.pages, batch.drafts, LandedAt(d, clock), clock, |batch.drafts|);
    RowsOfKnown(d, batch, clock, id);
    var row :| InRuns(existing, row) && row.pageId == id && Lands(row, d.pages);
    FlipKeepsSomeRow(d, batch, clock, id, row);
    var kept :| InRuns(Flip(committed, own, final), kept) && kept.pageId == id && Lands(kept, d.pages);
    assert Existing(e, clock.day) == Flip(committed, own, final);
    hide InRuns, PathOf, Flip;
    assert InRuns(Existing(e, clock.day), kept) && Lands(kept, e.pages);
    forall r | InRuns(Existing(e, clock.day), r) && r.pageId == id
      ensures !r.written
    {
      FlipRows(committed, own, final, r);
      InAppended(existing, own, r);
    }
  }

  lemma RowsOfKnown(d: Disk, batch: Batch, clock: Clock, id: PageId)
    requires LedgerOf(d, clock.day).Runs? && id != "" && id in LandedAt(d, clock)
    ensures forall i :: 0 <= i < |batch.drafts| && batch.drafts[i].pageId == id ==>
              PendingRun(d, batch, clock).rows[i] == FinalRun(d, batch, clock).rows[i] == LandedAt(d, clock)[id]
    ensures forall r: Row :: r.pageId == id
              && (r in PendingRun(d, batch, clock).rows || r in FinalRun(d, batch, clock).rows)
              ==> r == LandedAt(d, clock)[id]
  {
    LandedSound(Existing(d, clock.day), d.pages);
  }

  lemma FlipKeepsSomeRow(d: Disk, batch: Batch, clock: Clock, id: PageId, row: Row)
    requires LedgerOf(d, clock.day).Runs? && id != "" && id in LandedAt(d, clock)
    requires InRuns(Existing(d, clock.day), row) && row.pageId == id && Lands(row, d.pages)
    ensures var own, final := PendingRun(d, batch, clock), FinalRun(d, batch, clock);
            exists r :: InRuns(Flip(Existing(d, clock.day) + [own], own, final), r)
                        && r.pageId == id && Lands(r, d.pages)
  {
    var own, final := PendingRun(d, batch, clock), FinalRun(d, batch, clock);
    var committed := Existing(d, clock.day) + [own];
    var flipped := Flip(committed, own, final);
    LandedSound(Existing(d, clock.day), d.pages);
    InAppended(Existing(d, clock.day), own, row);
    FlipRows(committed, own, final, row);
    if !InRuns(flipped, row) {
      var i :| 0 <= i < |committed| && SameRun(committed[i], own) && row in committed[i].rows;
      var k :| 0 <= k < |committed[i].rows| && committed[i].rows[k] == row;
      assert PageIds(committed[i].rows)[k] == PageIds(own.rows)[k];
      assert |committed[i].rows| == |PageIds(committed[i].rows)| == |PageIds(own.rows)| == |own.rows|;
      RowsOfKnown(d, batch, clock, id);
      assert own.rows[k].pageId == id;
      assert batch.drafts[k].pageId == id by {
        if Known(batch.drafts[k], LandedAt(d, clock)) {
          assert own.rows[k].pageId == batch.drafts[k].pageId;
        }
      }
      FlipRows(committed, own, final, final.rows[k]);
    }
  }

  /** A completed attempt leaves the final row of each of its drafts in the ledger. */
  lemma CompletedRow(d: Disk, batch: Batch, clock: Clock, i: nat)
    requires LedgerOf(d, clock.day).Runs? && i < |batch.drafts|
    ensures LedgerOf(CutAt(d, batch, clock, |batch.drafts| + 2), clock.day).Runs?
    ensures InRuns(Existing(CutAt(d, batch, clock, |batch.drafts| + 2), clock.day), FinalRun(d, batch, clock).rows[i])
  {
    var own, final := PendingRun(d, batch, clock), FinalRun(d, batch, clock);
    FlipRows(Existing(d, clock.day) + [own], own, final, final.rows[i]);
  }

  lemma NotStuckOnceComplete(d: Disk, batch: Batch, clock: Clock, i: nat)
    requires LedgerOf(d, clock.day).Runs? && i < |batch.drafts| && !batch.drafts[i].forged
    requires forall row :: InRuns(Existing(d, clock.day), row) ==> row.pageId != batch.drafts[i].pageId
    ensures !StuckPending(CutAt(d, batch, clock, |batch.drafts| + 2), clock.day, batch.drafts[i].pageId)
  {
    LandedSound(Existing(d, clock.day), d.pages);
    CompletedRow(d, batch, clock, i);
    assert FinalRun(d, batch, clock).rows[i].written;
    hide CutAt, InRuns, FinalRun;
  }

  /** Where nobody shares the draft's id or path: the very crash points that leave its row stuck. */
  lemma StuckPendingExactlyWhen(d: Disk, batch: Batch, clock: Clock, k: nat, i: nat)
    requires LedgerOf(d, clock.day).Runs? && i < |batch.drafts|
    requires !batch.drafts[i].forged && batch.drafts[i].pageId != ""
    requires forall row :: InRuns(Existing(d, clock.day), row) ==> row.pageId != batch.drafts[i].pageId
    requires PathOf(batch.drafts[i], clock.pageDay) !in d.pages
    requires forall j :: 0 <= j < |batch.drafts| && j != i ==>
               batch.drafts[j].pageId != batch.drafts[i].pageId
               && PathOf(batch.drafts[j], clock.pageDay) != PathOf(batch.drafts[i], clock.pageDay)
    ensures StuckPending(CutAt(d, batch, clock, k), clock.day, batch.drafts[i].pageId)
            <==> i + 1 < k <= |batch.drafts| + 1
  {
    var n, id := |batch.drafts|, batch.drafts[i].pageId;
    if i + 1 < k <= n + 1 {
      CrashLeavesStuckPending(d, batch, clock, k, i);
    } else if 0 < k <= i + 1 {
      NotYetLanded(d, batch, clock, k - 1, i);
    } else if k > n + 1 {
      assert CutAt(d, batch, clock, k) == CutAt(d, batch, clock, n + 2);
      NotStuckOnceComplete(d, batch, clock, i);
    }
    hide CutAt, StuckPending, PathOf, Existing, InRuns;
  }

  lemma NotYetLanded(d: Disk, batch: Batch, clock: Clock, n: nat, i: nat)
    requires LedgerOf(d, clock.day).Runs? && n <= i < |batch.drafts|
    requires forall row :: InRuns(Existing(d, clock.day), row) ==> row.pageId != batch.drafts[i].pageId
    requires PathOf(batch.drafts[i], clock.pageDay) !in d.pages
    requires forall j :: 0 <= j < |batch.drafts| && j != i ==>
               batch.drafts[j].pageId != batch.drafts[i].pageId
               && PathOf(batch.drafts[j], clock.pageDay) != PathOf(batch.drafts[i], clock.pageDay)
    ensures !StuckPending(AfterLanding(d, batch, clock, n), clock.day, batch.drafts[i].pageId)
  {
    var e, own := AfterLanding(d, batch, clock, n), PendingRun(d, batch, clock);
    LandFirstAdds(d.pages, batch.drafts, LandedAt(d, clock), clock, n);
    LandedSound(Existing(d, clock.day), d.pages);
    hide PathOf, InRuns;
    forall row | InRuns(Existing(e, clock.day), row) && row.pageId == batch.drafts[i].pageId
      ensures !Lands(row, e.pages)
    {
      InAppended(Existing(d, clock.day), own, row);
      var j :| 0 <= j < |own.rows| && own.rows[j] == row;
      assert own.rows[j].pageId == batch.drafts[j].pageId;
      assert j == i;
    }
  }

  // ----------------------------------------------------------- rows without a page

  lemma {:induction false} LandingKeeps(
      pages: map<Path, Page>, drafts: seq<Draft>, landed: map<PageId, Row>, clock: Clock, i: nat, n: nat)
    requires i <= n <= |drafts|
    ensures Kept(LandFirst(pages, drafts, landed, clock, i), LandFirst(pages, drafts, landed, clock, n))
  {
    if i < n {
      LandingKeeps(pages, drafts, landed, clock, i, n - 1);
      LandOneAdds(LandFirst(pages, drafts, landed, clock, n - 1), drafts[n - 1], landed, clock);
      hide LandOne, Known, PathOf;
    }
  }

  /** What a planned row says of a page that already landed. */
  predicate RowFits(draft: Draft, landed: map<PageId, Row>, pages: map<Path, Page>) {
    Known(draft, landed) ==> landed[draft.pageId].pageId == draft.pageId && Lands(landed[draft.pageId], pages)
  }

  /** One turn of the landing loop ends with a page of the row's id exactly where nothing else was. */
  lemma TurnGivesPage(pages: map<Path, Page>, draft: Draft, landed: map<PageId, Row>, clock: Clock)
    requires RowFits(draft, landed, pages)
    requires Plan(draft, landed, clock.pageDay).path.Some?
    ensures var p, after := Plan(draft, landed, clock.pageDay).path.value, LandOne(pages, draft, landed, clock);
            p in after && (after[p].pageId == draft.pageId <==> p !in pages || pages[p].pageId == draft.pageId)
  {
    PathNonEmpty(draft, clock.pageDay);
    hide PathOf;
  }

  lemma FitsThrough(draft: Draft, landed: map<PageId, Row>, pages: map<Path, Page>, more: map<Path, Page>)
    requires RowFits(draft, landed, pages) && Kept(pages, more)
    ensures RowFits(draft, landed, more)
  {
  }

  /** The rest of the landing loop leaves what the draft's turn ended with. */
  lemma LoopGivesPage(pages: map<Path, Page>, drafts: seq<Draft>, landed: map<PageId, Row>, clock: Clock, i: nat)
    requires i < |drafts| && RowFits(drafts[i], landed, pages)
    requires Plan(drafts[i], landed, clock.pageDay).path.Some?
    ensures var p, id := Plan(drafts[i], landed, clock.pageDay).path.value, drafts[i].pageId;
            var before, after := LandFirst(pages, drafts, landed, clock, i),
                                 LandFirst(pages, drafts, landed, clock, |drafts|);
            p in after && (after[p].pageId == id <==> p !in before || before[p].pageId == id)
  {
    var before := LandFirst(pages, drafts, landed, clock, i);
    LandingKeeps(pages, drafts, landed, clock, 0, i);
    LandingKeeps(pages, drafts, landed, clock, i + 1, |drafts|);
    FitsThrough(drafts[i], landed, pages, before);
    assert LandFirst(pages, drafts, landed, clock, i + 1) == LandOne(before, drafts[i], landed, clock);
    hide LandFirst, LandOne, Plan, RowFits;
    TurnGivesPage(before, drafts[i], landed, clock);
  }

  lemma RowsFit(d: Disk, clock: Clock, draft: Draft)
    requires LedgerOf(d, clock.day).Runs?
    ensures RowFits(draft, LandedAt(d, clock), d.pages)
  {
    LandedSound(Existing(d, clock.day), d.pages);
  }

  /**
   When the row a completed attempt reports really has a page of its id: its path was free at the
   draft's turn, or the page there carried that id already.
   */
  lemma RowHasPageExactlyWhen(d: Disk, batch: Batch, clock: Clock, i: nat)
    requires LedgerOf(d, clock.day).Runs? && i < |batch.drafts|
    requires FinalRun(d, batch, clock).rows[i].path.Some?
    ensures var row, n := FinalRun(d, batch, clock).rows[i], |batch.drafts|;
            var before, after := AfterLanding(d, batch, clock, i).pages, CutAt(d, batch, clock, n + 2).pages;
            var p := row.path.value;
      && row.pageId == batch.drafts[i].pageId && p in after
      && (after[p].pageId == row.pageId <==> p !in before || before[p].pageId == row.pageId)
  {
    var draft := batch.drafts[i];
    RowsFit(d, clock, draft);
    assert Plan(draft, LandedAt(d, clock), clock.pageDay).pageId == draft.pageId;
    CutPages(d, batch, clock, |batch.drafts| + 2);
    hide LandFirst, Plan, RowFits, CutAt, LandedAt;
    LoopGivesPage(d.pages, batch.drafts, LandedAt(d, clock), clock, i);
  }

  /** Where drafts share a path that was free, the page is the first one's, and the others' rows say written. */
  lemma SharedPathIsTheFirsts(d: Disk, batch: Batch, clock: Clock, j: nat, i: nat)
    requires LedgerOf(d, clock.day).Runs? && j < i < |batch.drafts|
    requires !batch.drafts[j].forged && !Known(batch.drafts[j], LandedAt(d, clock))
    requires !batch.drafts[i].forged && !Known(batch.drafts[i], LandedAt(d, clock))
    requires PathOf(batch.drafts[j], clock.pageDay) == PathOf(batch.drafts[i], clock.pageDay)
    requires PathOf(batch.drafts[j], clock.pageDay) !in d.pages
    requires forall k :: 0 <= k < j ==>
               PathOf(batch.drafts[k], clock.pageDay) != PathOf(batch.drafts[j], clock.pageDay)
    ensures var row, after := FinalRun(d, batch, clock).rows[i], CutAt(d, batch, clock, |batch.drafts| + 2).pages;
      && row.written && row.path.Some? && row.path.value in after
      && after[row.path.value].pageId == batch.drafts[j].pageId
  {
    var p := PathOf(batch.drafts[j], clock.pageDay);
    assert FinalRun(d, batch, clock).rows[j].path == FinalRun(d, batch, clock).rows[i].path == Some(p);
    assert FinalRun(d, batch, clock).rows[i].written;
    LandFirstAdds(d.pages, batch.drafts, LandedAt(d, clock), clock, j);
    hide PathOf, FinalRun, LandFirst, CutAt, LandedAt, Known;
    assert p !in AfterLanding(d, batch, clock, j).pages;
    RowHasPageExactlyWhen(d, batch, clock, j);
  }

  // ------------------------------------------------------------- a rerun, whenever

  /** The pages these drafts land where these ids have landed already. */
  ghost function NewPaths(drafts: seq<Draft>, landed: map<PageId, Row>, clock: Clock): set<Path> {
    set draft | draft in drafts && !draft.forged && !Known(draft, landed) :: PathOf(draft, clock.pageDay)
  }

  lemma LandingKeys(pages: map<Path, Page>, drafts: seq<Draft>, landed: map<PageId, Row>, clock: Clock)
    ensures LandFirst(pages, drafts, landed, clock, |drafts|).Keys == pages.Keys + NewPaths(drafts, landed, clock)
  {
    var n := |drafts|;
    var after := LandFirst(pages, drafts, landed, clock, n);
    LandFirstAdds(pages, drafts, landed, clock, n);
    hide PathOf, LandFirst, Known;
    forall p | p in after && p !in pages
      ensures p in NewPaths(drafts, landed, clock)
    {
      var k :| 0 <= k < n && Lander(drafts[k], landed, clock, p);
      assert drafts[k] in drafts;
    }
    forall draft | draft in drafts && !draft.forged && !Known(draft, landed)
      ensures PathOf(draft, clock.pageDay) in after
    {
      var k :| 0 <= k < n && drafts[k] == draft;
    }
  }

  /** What a completed attempt adds to the vault, whatever was in it. */
  lemma CompletedPages(d: Disk, batch: Batch, clock: Clock)
    requires LedgerOf(d, clock.day).Runs?
    ensures CutAt(d, batch, clock, |batch.drafts| + 2).pages.Keys
            == d.pages.Keys + NewPaths(batch.drafts, LandedAt(d, clock), clock)
    ensures Kept(d.pages, CutAt(d, batch, clock, |batch.drafts| + 2).pages)
  {
    LandingKeys(d.pages, batch.drafts, LandedAt(d, clock), clock);
    LandFirstAdds(d.pages, batch.drafts, LandedAt(d, clock), clock, |batch.drafts|);
    hide PathOf, LandFirst, Known, NewPaths, Lander, Landed, PendingRun, Planned;
  }

  /** The draft has landed on this vault already, under that page or by the ledger of that day. */
  predicate Settled(draft: Draft, d: Disk, clock: Clock)
    requires LedgerOf(d, clock.day).Runs?
  {
    Known(draft, LandedAt(d, clock)) || PathOf(draft, clock.pageDay) in d.pages
  }

  /**
   Rerunning a completed batch at any later time, on any vault, adds a page if and only if some draft
   that is not forged is neither landed by the ledger of that day nor has its page of that day there.
   */
  lemma SecondPageExactlyWhen(d: Disk, batch: Batch, first: Clock, second: Clock)
    requires LedgerOf(d, first.day).Runs?
    requires LedgerOf(CutAt(d, batch, first, |batch.drafts| + 2), second.day).Runs?
    ensures var once := CutAt(d, batch, first, |batch.drafts| + 2);
            var twice := CutAt(once, batch, second, |batch.drafts| + 2);
      && (twice.pages.Keys != once.pages.Keys
          <==> exists draft :: draft in batch.drafts && !draft.forged && !Settled(draft, once, second))
      && Kept(once.pages, twice.pages)
  {
    var once := CutAt(d, batch, first, |batch.drafts| + 2);
    CompletedPages(once, batch, second);
    hide CutAt, PathOf, Known;
    var added := NewPaths(batch.drafts, LandedAt(once, second), second);
    if draft :| draft in batch.drafts && !draft.forged && !Settled(draft, once, second) {
      assert PathOf(draft, second.pageDay) in added;
    }
  }

  /** Within its ledger day a completed batch has landed each of its drafts that has an id. */
  lemma CompletedIsKnown(d: Disk, batch: Batch, first: Clock, second: Clock, draft: Draft)
    requires LedgerOf(d, first.day).Runs? && second.day == first.day
    requires draft in batch.drafts && !draft.forged && draft.pageId != ""
    ensures LedgerOf(CutAt(d, batch, first, |batch.drafts| + 2), second.day).Runs?
    ensures Known(draft, LandedAt(CutAt(d, batch, first, |batch.drafts| + 2), second))
  {
    var once := CutAt(d, batch, first, |batch.drafts| + 2);
    var k :| 0 <= k < |batch.drafts| && batch.drafts[k] == draft;
    var row := FinalRun(d, batch, first).rows[k];
    CompletedRow(d, batch, first, k);
    CompletedPages(d, batch, first);
    LandedSound(Existing(d, first.day), d.pages);
    PathNonEmpty(draft, first.pageDay);
    assert Lands(row, once.pages) && row.pageId == draft.pageId by {
      hide PathOf, CutAt, LandedAt, InRuns;
      if !Known(draft, LandedAt(d, first)) {
        assert PathOf(draft, first.pageDay) in NewPaths(batch.drafts, LandedAt(d, first), first);
      }
    }
    LandedSound(Existing(once, second.day), once.pages);
  }

  /** A completed attempt leaves a readable ledger for its day and every other day's as it was. */
  lemma CompletedLedger(d: Disk, batch: Batch, clock: Clock, day: Day)
    requires LedgerOf(d, clock.day).Runs?
    ensures var once := CutAt(d, batch, clock, |batch.drafts| + 2);
            if day == clock.day then LedgerOf(once, day).Runs? else LedgerOf(once, day) == LedgerOf(d, day)
  {
  }
  /** So on the ledger's own day no rerun adds a page for a draft with an id, even past midnight. */
  lemma SameLedgerDayAddsNothing(d: Disk, batch: Batch, first: Clock, second: Clock)
    requires LedgerOf(d, first.day).Runs? && second.day == first.day
    ensures var once := CutAt(d, batch, first, |batch.drafts| + 2);
            CutAt(once, batch, second, |batch.drafts| + 2).pages.Keys != once.pages.Keys
            <==> exists draft :: draft in batch.drafts && !draft.forged && draft.pageId == ""
                                 && PathOf(draft, second.pageDay) !in once.pages
  {
    var once := CutAt(d, batch, first, |batch.drafts| + 2);
    CompletedLedger(d, batch, first, second.day);
    hide PathOf, CutAt, LandedAt;
    forall draft | draft in batch.drafts && !draft.forged && draft.pageId != ""
      ensures Settled(draft, once, second)
    {
      CompletedIsKnown(d, batch, first, second, draft);
    }
    SecondPageExactlyWhen(d, batch, first, second);
  }

  /** The pages these drafts have on that day. */
  ghost function PathsOn(drafts: seq<Draft>, day: Day): set<Path> {
    set draft | draft in drafts && !draft.forged :: PathOf(draft, day)
  }

  /** Of two drafts that agree in all but their ids, those with one page agree in the ids' last six characters. */
  lemma PathTellsIdTail(a: Draft, b: Draft, day: Day)
    requires a.section == b.section && a.slug == b.slug && |a.pageId| >= 6 && |b.pageId| >= 6
    ensures PathOf(a, day) == PathOf(b, day) <==> a.pageId[|a.pageId| - 6..] == b.pageId[|b.pageId| - 6..]
  {
    var head := "wiki/" + a.section + "/" + day + "-" + a.slug + "-";
    PathAround(a, day);
    PathAround(b, day);
    Between(head, ".md", a.pageId[|a.pageId| - 6..], b.pageId[|b.pageId| - 6..]);
  }

  lemma PathAround(draft: Draft, day: Day)
    requires |draft.pageId| >= 6
    ensures PathOf(draft, day)
            == "wiki/" + draft.section + "/" + day + "-" + draft.slug + "-" + draft.pageId[|draft.pageId| - 6..] + ".md"
  {
  }

  lemma Between(head: string, tail: string, x: string, y: string)
    requires |x| == |y|
    ensures head + x + tail == head + y + tail <==> x == y
  {
    if head + x + tail == head + y + tail {
      assert x == (head + x + tail)[|head|..|head| + |x|];
      assert y == (head + y + tail)[|head|..|head| + |y|];
    }
  }

  /** Neither ledger has landed the batch's drafts, and none of their later pages is there. */
  ghost predicate NewTo(batch: Batch, d: Disk, first: Clock, second: Clock) {
    && LedgerOf(d, first.day).Runs? && LedgerOf(d, second.day).Runs?
    && forall draft :: draft in batch.drafts && !draft.forged ==>
         && draft.pageId != "" && !Known(draft, LandedAt(d, first))
         && (forall row :: InRuns(Existing(d, second.day), row) ==> row.pageId != draft.pageId)
         && (first.pageDay != second.pageDay ==> PathOf(draft, second.pageDay) !in d.pages)
  }

  lemma NewBatchPaths(d: Disk, batch: Batch, first: Clock, second: Clock)
    requires NewTo(batch, d, first, second)
    ensures NewPaths(batch.drafts, LandedAt(d, first), first) == PathsOn(batch.drafts, first.pageDay)
  {
    hide PathOf, LandedAt;
  }

  lemma StillUnknown(d: Disk, batch: Batch, first: Clock, second: Clock)
    requires NewTo(batch, d, first, second) && first.day != second.day
    ensures var once := CutAt(d, batch, first, |batch.drafts| + 2);
            LedgerOf(once, second.day).Runs?
            && NewPaths(batch.drafts, LandedAt(once, second), second) == PathsOn(batch.drafts, second.pageDay)
  {
    var once := CutAt(d, batch, first, |batch.drafts| + 2);
    CompletedLedger(d, batch, first, second.day);
    LandedSound(Existing(once, second.day), once.pages);
    hide PathOf, CutAt;
  }

  /** A batch new to the vault: what it lands, and what rerunning it complete then adds. */
  lemma RerunOfNewBatch(d: Disk, batch: Batch, first: Clock, second: Clock)
    requires NewTo(batch, d, first, second)
    ensures var once := CutAt(d, batch, first, |batch.drafts| + 2);
            var twice := CutAt(once, batch, second, |batch.drafts| + 2);
      && once.pages.Keys == d.pages.Keys + PathsOn(batch.drafts, first.pageDay)
      && twice.pages.Keys == once.pages.Keys
                             + if first.day != second.day then PathsOn(batch.drafts, second.pageDay) else {}
  {
    hide CutAt, PathOf, LandedAt, NewPaths, PathsOn, Known, LedgerOf;
    var once := CutAt(d, batch, first, |batch.drafts| + 2);
    CompletedPages(d, batch, first);
    NewBatchPaths(d, batch, first, second);
    if first.day == second.day {
      SameLedgerDayAddsNothing(d, batch, first, second);
    } else {
      StillUnknown(d, batch, first, second);
      CompletedPages(once, batch, second);
    }
  }

  /** Sections are single directories, as the loop's own are. */
  predicate PlainSections(batch: Batch) {
    forall draft :: draft in batch.drafts ==> '/' !in draft.section
  }

  /**
   The ledger is per day and so are the page paths: rerunning a completed batch that was new to the
   vault mints a second page if and only if both the ledger day and the page day have moved on, and
   then one for every draft that is not forged.
   */
  lemma SecondPageExactlyWhenDaysMove(d: Disk, batch: Batch, first: Clock, second: Clock)
    requires NewTo(batch, d, first, second) && (PlainSections(batch) || |batch.drafts| == 1)
    ensures var once := CutAt(d, batch, first, |batch.drafts| + 2);
            var twice := CutAt(once, batch, second, |batch.drafts| + 2);
      && twice.pages.Keys == once.pages.Keys
           + (if first.day != second.day && first.pageDay != second.pageDay
              then PathsOn(batch.drafts, second.pageDay) else {})
      && (first.pageDay != second.pageDay ==> PathsOn(batch.drafts, second.pageDay) !! once.pages.Keys)
  {
    var once := CutAt(d, batch, first, |batch.drafts| + 2);
    RerunOfNewBatch(d, batch, first, second);
    hide CutAt, PathOf, LandedAt;
    if first.pageDay != second.pageDay {
      DaysApart(batch, first.pageDay, second.pageDay);
    }
  }

  lemma DaysApart(batch: Batch, x: Day, y: Day)
    requires x != y && (PlainSections(batch) || |batch.drafts| == 1)
    ensures PathsOn(batch.drafts, x) !! PathsOn(batch.drafts, y)
  {
    hide PathOf;
    forall p | p in PathsOn(batch.drafts, x)
      ensures p !in PathsOn(batch.drafts, y)
    {
      if p in PathsOn(batch.drafts, y) {
        var a :| a in batch.drafts && !a.forged && p == PathOf(a, x);
        var b :| b in batch.drafts && !b.forged && p == PathOf(b, y);
        PathTellsDay(a, b, x, y);
      }
    }
  }

  lemma PathTellsDay(a: Draft, b: Draft, x: Day, y: Day)
    requires PathOf(a, x) == PathOf(b, y)
    requires a.section == b.section || ('/' !in a.section && '/' !in b.section)
    ensures x == y
  {
    SectionOfPath(a, x);
    SectionOfPath(b, y);
    hide PathOf;
    if a.section != b.section {
      if |b.section| < |a.section| { SlashFree(a, x, |b.section|); }
      if |a.section| < |b.section| { SlashFree(b, y, |a.section|); }
    }
    var p, n := PathOf(a, x), |a.section|;
    assert x == p[6 + n..14 + n] == y;
  }

  lemma SlashFree(draft: Draft, day: Day, i: nat)
    requires '/' !in draft.section && i < |draft.section|
    ensures PathOf(draft, day)[5 + i] != '/'
  {
    SectionOfPath(draft, day);
    assert draft.section[i] in draft.section;
  }

  lemma SectionOfPath(draft: Draft, day: Day)
    ensures var p, n := PathOf(draft, day), |draft.section|;
      && |p| >= 14 + n && p[5 + n] == '/' && p[6 + n..14 + n] == day
      && (forall i :: 0 <= i < n ==> p[5 + i] == draft.section[i])
  {
    var head := "wiki/" + draft.section + "/";
    var tail := "-" + draft.slug + "-" + LastSix(draft.pageId) + ".md";
    assert PathOf(draft, day) == head + day + tail;
  }
}
