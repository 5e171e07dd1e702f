/**
 The ledger-first batch write, and what a crash at any of its atomic writes leaves behind.

 A batch commits a ledger run whose rows are all pending, lands one wiki page per row, and then
 flips its run to the landed rows.  A vault is the ledger files, one per day, and the wiki pages.
 */
module BatchLedger {
  import opened Prelude

  type PageId = string
  type Path = string

  /** A calendar day as it appears in page paths, `YYYYMMDD`. */
  type Day = s: string | |s| == 8 witness "20260101"

  datatype Draft = Draft(pageId: PageId, section: string, slug: string, forged: bool)

  datatype Page = Page(pageId: PageId, stamp: int)

  /** One ledger row. A refused (forged) draft has no path. */
  datatype Row = Row(pageId: PageId, path: Option<Path>, written: bool)

  datatype LedgerRun = LedgerRun(traceId: string, createdAt: int, rows: seq<Row>)

  datatype Ledger = Torn | Runs(runs: seq<LedgerRun>)

  datatype Disk = Disk(ledgers: map<Day, Ledger>, pages: map<Path, Page>)

  datatype Batch = Batch(traceId: string, drafts: seq<Draft>)

  /** The clock readings of one attempt: ledger day, page day, second of the run, page stamp. */
  datatype Clock = Clock(day: Day, pageDay: Day, createdAt: int, stamp: int)

  // -------------------------------------------------------------------- one draft

  function LastSix(id: PageId): string {
    if |id| <= 6 then id else id[|id| - 6..]
  }

  function PathOf(draft: Draft, day: Day): Path {
    "wiki/" + draft.section + "/" + day + "-" + draft.slug + "-" + LastSix(draft.pageId) + ".md"
  }

  /** The row `_write_one` returns, whether or not it lands the page. */
  function Render(draft: Draft, day: Day): Row {
    if draft.forged then Row(draft.pageId, None, false) else Row(draft.pageId, Some(PathOf(draft, day)), true)
  }

  function LedgerOf(d: Disk, day: Day): Ledger {
    if day in d.ledgers then d.ledgers[day] else Runs([])
  }

  /** The row names a page that is on disk. */
  predicate Lands(row: Row, pages: map<Path, Page>) {
    row.pageId != "" && row.path.Some? && row.path.value != "" && row.path.value in pages
  }

  function LandedRows(rows: seq<Row>, pages: map<Path, Page>): map<PageId, Row> {
    if rows == [] then map[]
    else
      var before, row := LandedRows(rows[..|rows| - 1], pages), rows[|rows| - 1];
      if Lands(row, pages) then before[row.pageId := row] else before
  }

  /** page_id to row, for pages that already landed; the last such row wins. */
  function Landed(runs: seq<LedgerRun>, pages: map<Path, Page>): map<PageId, Row> {
    if runs == [] then map[]
    else Landed(runs[..|runs| - 1], pages) + LandedRows(runs[|runs| - 1].rows, pages)
  }

  // ------------------------------------------------------------------ the batch

  predicate Known(draft: Draft, landed: map<PageId, Row>) {
    draft.pageId != "" && draft.pageId in landed
  }

  function Plan(draft: Draft, landed: map<PageId, Row>, day: Day): Row {
    if Known(draft, landed) then landed[draft.pageId] else Render(draft, day)
  }

  function Planned(drafts: seq<Draft>, landed: map<PageId, Row>, day: Day): seq<Row> {
    seq(|drafts|, i requires 0 <= i < |drafts| => Plan(drafts[i], landed, day))
  }

  /** The rows committed before any page lands: a row not yet landed is not written. */
  function Pending(drafts: seq<Draft>, landed: map<PageId, Row>, day: Day): seq<Row> {
    seq(|drafts|, i requires 0 <= i < |drafts| =>
      if Known(drafts[i], landed) then landed[drafts[i].pageId] else Render(drafts[i], day).(written := false))
  }

  /** One turn of the landing loop. */
  function LandOne(pages: map<Path, Page>, draft: Draft, landed: map<PageId, Row>, clock: Clock): map<Path, Page> {
    var row := Plan(draft, landed, clock.pageDay);
    if Known(draft, landed) || !row.written || row.path.None? || row.path.value == "" || row.path.value in pages
    then pages
    else pages[row.path.value := Page(draft.pageId, clock.stamp)]
  }

  function LandFirst(pages: map<Path, Page>, drafts: seq<Draft>, landed: map<PageId, Row>, clock: Clock, n: nat)
    : map<Path, Page>
    requires n <= |drafts|
  {
    if n == 0 then pages
    else LandOne(LandFirst(pages, drafts, landed, clock, n - 1), drafts[n - 1], landed, clock)
  }

  function PageIds(rows: seq<Row>): seq<PageId> {
    seq(|rows|, i requires 0 <= i < |rows| => rows[i].pageId)
  }

  /** The run the flip takes for its own: trace, second and page ids agree. */
  predicate SameRun(run: LedgerRun, own: LedgerRun) {
    run.traceId == own.traceId && run.createdAt == own.createdAt && PageIds(run.rows) == PageIds(own.rows)
  }

  /** Replace the first run that looks like `own` by `final`; append when none does. */
  function Flip(runs: seq<LedgerRun>, own: LedgerRun, final: LedgerRun): seq<LedgerRun> {
    if runs == [] then [final]
    else if SameRun(runs[0], own) then [final] + runs[1..]
    else [runs[0]] + Flip(runs[1..], own, final)
  }

  function Existing(d: Disk, day: Day): seq<LedgerRun>
    requires LedgerOf(d, day).Runs?
  {
    LedgerOf(d, day).runs
  }

  function LandedAt(d: Disk, clock: Clock): map<PageId, Row>
    requires LedgerOf(d, clock.day).Runs?
  {
    Landed(Existing(d, clock.day), d.pages)
  }

  function PendingRun(d: Disk, batch: Batch, clock: Clock): LedgerRun
    requires LedgerOf(d, clock.day).Runs?
  {
    LedgerRun(batch.traceId, clock.createdAt, Pending(batch.drafts, LandedAt(d, clock), clock.pageDay))
  }

  function FinalRun(d: Disk, batch: Batch, clock: Clock): LedgerRun
    requires LedgerOf(d, clock.day).Runs?
  {
    LedgerRun(batch.traceId, clock.createdAt, Planned(batch.drafts, LandedAt(d, clock), clock.pageDay))
  }

  function Commit(d: Disk, batch: Batch, clock: Clock): Disk
    requires LedgerOf(d, clock.day).Runs?
  {
    d.(ledgers := d.ledgers[clock.day := Runs(Existing(d, clock.day) + [PendingRun(d, batch, clock)])])
  }

  /** The disk once the ledger is committed and the first `n` drafts have had their turn. */
  function AfterLanding(d: Disk, batch: Batch, clock: Clock, n: nat): Disk
    requires LedgerOf(d, clock.day).Runs? && n <= |batch.drafts|
  {
    Commit(d, batch, clock).(pages := LandFirst(d.pages, batch.drafts, LandedAt(d, clock), clock, n))
  }

  /** The flip, over whatever the reload finds in the ledger. */
  function FlipLedger(d: Disk, batch: Batch, clock: Clock, found: Ledger): Ledger
    requires LedgerOf(d, clock.day).Runs?
  {
    var final := FinalRun(d, batch, clock);
    match found
    case Torn => Runs(Existing(d, clock.day) + [final])
    case Runs(runs) => Runs(Flip(runs, PendingRun(d, batch, clock), final))
  }

  function Complete(d: Disk, batch: Batch, clock: Clock, found: Ledger): Disk
    requires LedgerOf(d, clock.day).Runs?
  {
    var e := AfterLanding(d, batch, clock, |batch.drafts|);
    e.(ledgers := e.ledgers[clock.day := FlipLedger(d, batch, clock, found)])
  }

  /**
   What an attempt leaves when the process dies after `k` atomic writes: nothing, the commit,
   the commit and some pages, or the whole batch.  A torn ledger refuses the batch outright.
   */
  function CutAt(d: Disk, batch: Batch, clock: Clock, k: nat): Disk {
    if LedgerOf(d, clock.day).Torn? || k == 0 then d
    else if k <= |batch.drafts| + 1 then AfterLanding(d, batch, clock, k - 1)
    else Complete(d, batch, clock, LedgerOf(Commit(d, batch, clock), clock.day))
  }
}
