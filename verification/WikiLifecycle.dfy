/** The expiry sweep and the endorsement call over the wiki's pages, updated in place. */
module WikiLifecycle {
  import opened Prelude
  import opened Frontmatter
  import opened DraftStatus
  import opened StatusLine

  type Path = string

  datatype Endorsement =
    | Accepted(path: Path, status: string)
    | BadDecision
    | NotFound
    | NotADraft(path: Path)

  function StatusFor(decision: string): Option<string> {
    if decision == "accept" then Some("accepted")
    else if decision == "reject" then Some("rejected")
    else if decision == "edit" then Some("edit_requested")
    else None
  }

  /** What one sweep at `now` leaves of a page. */
  function Swept(probes: Probes, text: string, now: int): string {
    if Expirable(probes, text, now) then Stamped(text, "expired") else text
  }

  /** The wiki once every page outside `todo` has had its turn, and the pages expired by then. */
  ghost function SweptBut(probes: Probes, pages: map<Path, string>, todo: set<Path>, now: int): map<Path, string> {
    map p | p in pages :: if p in todo then pages[p] else Swept(probes, pages[p], now)
  }

  ghost function StaleBut(probes: Probes, pages: map<Path, string>, todo: set<Path>, now: int): set<Path> {
    set p | p in pages && p !in todo && Expirable(probes, pages[p], now)
  }

  lemma SweepNone(probes: Probes, pages: map<Path, string>, now: int)
    ensures SweptBut(probes, pages, pages.Keys, now) == pages && |StaleBut(probes, pages, pages.Keys, now)| == 0
  {
    hide Swept, Expirable;
    assert StaleBut(probes, pages, pages.Keys, now) == {};
  }

  lemma SweepOne(probes: Probes, pages: map<Path, string>, todo: set<Path>, path: Path, now: int)
    requires path in todo && todo <= pages.Keys
    ensures path in SweptBut(probes, pages, todo, now) && SweptBut(probes, pages, todo, now)[path] == pages[path]
    ensures SweptBut(probes, pages, todo - {path}, now)
            == SweptBut(probes, pages, todo, now)[path := Swept(probes, pages[path], now)]
    ensures |StaleBut(probes, pages, todo - {path}, now)|
            == |StaleBut(probes, pages, todo, now)| + (if Expirable(probes, pages[path], now) then 1 else 0)
  {
    hide Swept, Expirable;
    CountOne(probes, pages, todo, path, now);
  }

  lemma CountOne(probes: Probes, pages: map<Path, string>, todo: set<Path>, path: Path, now: int)
    requires path in todo && todo <= pages.Keys
    ensures StaleBut(probes, pages, todo - {path}, now)
            == StaleBut(probes, pages, todo, now) + (if Expirable(probes, pages[path], now) then {path} else {})
    ensures path !in StaleBut(probes, pages, todo, now)
  {
    hide Expirable;
  }

  /** A swept wiki, read off its pages. */
  lemma SweptReads(probes: Probes, pages: map<Path, string>, now: int)
    ensures var swept := SweptBut(probes, pages, {}, now);
      && swept.Keys == pages.Keys
      && forall p :: p in pages ==>
           if Expirable(probes, pages[p], now) then Rewritten(pages[p], swept[p], "expired") else swept[p] == pages[p]
  {
    hide Rewritten, Stamped;
    forall p | p in pages && Expirable(probes, pages[p], now)
      ensures Rewritten(pages[p], Swept(probes, pages[p], now), "expired")
    {
      StampedIsRewritten(pages[p], "expired");
    }
  }

  /** The sweep's turn at one page, under that page's lock. */
  method SweepPage(probes: Probes, text: string, now: int) returns (stale: bool, rewritten: string)
    ensures stale <==> Expirable(probes, text, now)
    ensures stale <==>
              && Block(text).Some? && IsDraft(Block(text).value) && probes.afm(Block(text).value)
              && probes.expiresAt(Block(text).value).Some? && probes.expiresAt(Block(text).value).value < now
    ensures stale ==> Rewritten(text, rewritten, "expired")
    ensures rewritten == Swept(probes, text, now) && (!stale ==> rewritten == text)
  {
    stale, rewritten := false, text;
    var block := Block(text);
    if block.None? || !IsDraft(block.value) || !probes.afm(block.value) {
      return;
    }
    var expires := probes.expiresAt(block.value);
    if expires.None? || expires.value >= now {
      return;
    }
    stale, rewritten := true, Restamp(block.value, "expired") + text[|block.value|..];
    RestampRewrites(text, "expired");
    hide Rewritten, Restamp, Block;
  }

  class Wiki {
    var pages: map<Path, string>

    /** `_expire_stale_drafts`: every page that qualifies is expired, every other is left alone. */
    method ExpireStaleDrafts(probes: Probes, now: int) returns (expired: nat)
      modifies this
      ensures pages == SweptBut(probes, old(pages), {}, now)
      ensures expired == |StaleBut(probes, old(pages), {}, now)|
      ensures pages.Keys == old(pages).Keys
      ensures forall p :: p in pages ==>
                if Expirable(probes, old(pages)[p], now) then Rewritten(old(pages)[p], pages[p], "expired")
                else pages[p] == old(pages)[p]
    {
      SweptReads(probes, pages, now);
      hide *;
      expired := 0;
      var todo := pages.Keys;
      ghost var was := pages;
      SweepNone(probes, was, now);
      while todo != {}
        invariant todo <= was.Keys
        invariant pages == SweptBut(probes, was, todo, now)
        invariant expired == |StaleBut(probes, was, todo, now)|
        decreases |todo|
      {
        var path :| path in todo;
        SweepOne(probes, was, todo, path, now);
        var stale, text := SweepPage(probes, pages[path], now);
        ghost var before := pages;
        if stale {
          pages := pages[path := text];
          expired := expired + 1;
        }
        assert pages == before[path := text];
        todo := todo - {path};
      }
    }

    /** `endorse_draft`: resolve by the page's own id, then rewrite its status and nothing else. */
    method EndorseDraft(probes: Probes, pageId: string, decision: string) returns (r: Endorsement)
      modifies this
      ensures r == BadDecision <==> decision !in ["accept", "reject", "edit"]
      ensures r == NotFound
              <==> decision in ["accept", "reject", "edit"]
                   && forall p :: p in old(pages) ==> !Named(probes, old(pages)[p], pageId)
      ensures r == NotFound ==> forall p :: p in old(pages) && Block(old(pages)[p]).Some? ==>
                probes.pageId(Block(old(pages)[p]).value) != Some(pageId)
      ensures r.Accepted? || r.NotADraft? ==> r.path in old(pages) && Named(probes, old(pages)[r.path], pageId)
      ensures r.Accepted? || r.NotADraft? ==>
                Block(old(pages)[r.path]).Some? && probes.pageId(Block(old(pages)[r.path]).value) == Some(pageId)
      ensures r.NotADraft? ==> !IsDraft(Block(old(pages)[r.path]).value)
      ensures r.Accepted? ==>
                && IsDraft(Block(old(pages)[r.path]).value)
                && (decision == "accept" ==> r.status == "accepted")
                && (decision == "reject" ==> r.status == "rejected")
                && (decision == "edit" ==> r.status == "edit_requested")
                && pages.Keys == old(pages).Keys
                && (forall p :: p in pages && p != r.path ==> pages[p] == old(pages)[p])
                && Rewritten(old(pages)[r.path], pages[r.path], r.status)
      ensures r.Accepted? ==>
                pages == old(pages)[r.path := Stamped(old(pages)[r.path], r.status)]
      ensures !r.Accepted? ==> pages == old(pages)
    {
      var status := StatusFor(decision);
      hide Rewritten, Stamped, Block, IsDraft;
      if status.None? {
        return BadDecision;
      }
      var todo := pages.Keys;
      while todo != {}
        invariant todo <= pages.Keys && pages == old(pages)
        invariant forall p :: p in pages && p !in todo ==> !Named(probes, pages[p], pageId)
        decreases |todo|
      {
        var path :| path in todo;
        var text := pages[path];
        if Named(probes, text, pageId) {
          if !IsDraft(Block(text).value) {
            return NotADraft(path);
          }
          StampedIsRewritten(text, status.value);
          pages := pages[path := Stamped(text, status.value)];
          return Accepted(path, status.value);
        }
        todo := todo - {path};
      }
      r := NotFound;
    }
  }

  /** A second sweep with the same clock expires nothing more, on pages with one draft line at most. */
  lemma SweepIdempotent(probes: Probes, text: string, now: int)
    requires Block(text).Some? && IsDraft(Block(text).value) ==> OneDraftLine(Block(text).value)
    ensures Swept(probes, Swept(probes, text, now), now) == Swept(probes, text, now)
  {
    if Expirable(probes, text, now) {
      RestampKeepsBlock(text, "expired");
      RestampLeavesDraft(Block(text).value, "expired");
    }
    hide Restamp, IsDraft, OneDraftLine, Block, Body;
  }

  /** An endorsed page survives every later sweep unchanged. */
  lemma EndorsementSurvivesSweeps(probes: Probes, text: string, status: string, now: int)
    requires Block(text).Some? && IsDraft(Block(text).value) && OneDraftLine(Block(text).value) && IsVerdict(status)
    ensures Swept(probes, Stamped(text, status), now) == Stamped(text, status)
  {
    RestampKeepsBlock(text, status);
    RestampLeavesDraft(Block(text).value, status);
    hide Restamp, IsDraft, OneDraftLine, Block, Body;
  }
}
