/**
 The fenced frontmatter block of a wiki page, and the one rewrite lifecycle code makes in it.
 The draft-status pattern is matched character by character, as its regular expression is.
 */
module Frontmatter {
  import opened Prelude
  import opened Words

  // ----------------------------------------------------------------------- fences

  predicate At(text: string, pat: string, k: nat) {
    k + |pat| <= |text| && text[k..k + |pat|] == pat
  }

  /** `text.find(pat, from)`. */
  function FindFrom(text: string, pat: string, from: nat): (r: Option<nat>)
    ensures r.Some? ==> from <= r.value && At(text, pat, r.value)
    ensures forall k :: from <= k < (if r.Some? then r.value else |text|) ==> !At(text, pat, k)
    decreases |text| - from
  {
    if from >= |text| then
      if from == |text| && pat == "" then Some(from) else None
    else if At(text, pat, from) then Some(from)
    else FindFrom(text, pat, from + 1)
  }

  const FENCE := "\n---"

  /** The leading closed block, without its closing fence. */
  function Block(text: string): Option<string> {
    if !At(text, "---", 0) then None
    else
      match FindFrom(text, FENCE, 3)
      case None => None
      case Some(end) => Some(text[..end])
  }

  function Body(text: string): string
    requires Block(text).Some?
  {
    text[|Block(text).value|..]
  }

  // ----------------------------------------------------------- the status pattern

  predicate IsQuote(c: char) {
    c == '\'' || c == '"'
  }

  function SkipSpace(fm: string, k: nat): (r: nat)
    requires k <= |fm|
    ensures k <= r <= |fm| && (forall j :: k <= j < r ==> IsSpace(fm[j])) && (r < |fm| ==> !IsSpace(fm[r]))
    decreases |fm| - k
  {
    if k < |fm| && IsSpace(fm[k]) then SkipSpace(fm, k + 1) else k
  }

  function SkipQuote(fm: string, k: nat): nat
    requires k <= |fm|
  {
    if k < |fm| && IsQuote(fm[k]) then k + 1 else k
  }

  predicate LineStart(fm: string, k: nat) {
    k == 0 || (k <= |fm| && fm[k - 1] == '\n')
  }

  predicate LineEnd(fm: string, k: nat) {
    k == |fm| || (k < |fm| && fm[k] == '\n')
  }

  /** The last line end in `[lo, hi]`: what trailing white space followed by end-of-line matches. */
  function LastLineEnd(fm: string, lo: nat, hi: nat): (r: Option<nat>)
    requires lo <= hi <= |fm|
    ensures r.Some? ==> lo <= r.value <= hi && LineEnd(fm, r.value)
    decreases hi - lo
  {
    if LineEnd(fm, hi) then Some(hi) else if hi == lo then None else LastLineEnd(fm, lo, hi - 1)
  }

  const KEY := "status:"
  const DRAFT := "draft"

  /** The end of the value part of a match: the word, an optional quote, white space to a line end. */
  function WordMatch(fm: string, word: nat): (r: Option<nat>)
    ensures r.Some? ==> word < r.value <= |fm| && LineEnd(fm, r.value)
  {
    if !At(fm, DRAFT, word) then None
    else
      var after := SkipQuote(fm, word + |DRAFT|);
      LastLineEnd(fm, after, SkipSpace(fm, after))
  }

  /** The end of a draft-status match that starts at `i`, if there is one. */
  function DraftMatch(fm: string, i: nat): (r: Option<nat>)
    ensures r.Some? ==> i + |KEY| < r.value <= |fm| && At(fm, KEY, i) && LineStart(fm, i) && LineEnd(fm, r.value)
  {
    if !LineStart(fm, i) || !At(fm, KEY, i) then None
    else WordMatch(fm, SkipQuote(fm, SkipSpace(fm, i + |KEY|)))
  }

  /** The leftmost draft-status match at or after `from`: its start. */
  function FirstDraft(fm: string, from: nat): (r: Option<nat>)
    ensures r.Some? ==> from <= r.value <= |fm| && DraftMatch(fm, r.value).Some?
    ensures forall k :: from <= k < (if r.Some? then r.value else |fm|) ==> DraftMatch(fm, k).None?
    decreases |fm| - from
  {
    if from >= |fm| then None
    else if DraftMatch(fm, from).Some? then Some(from)
    else FirstDraft(fm, from + 1)
  }

  predicate IsDraft(fm: string) {
    FirstDraft(fm, 0).Some?
  }

  /** The block has one line that reads as a draft status, and no second one. */
  predicate OneDraftLine(fm: string) {
    IsDraft(fm) && FirstDraft(fm, FirstDraft(fm, 0).value + 1).None?
  }

  /** The words lifecycle code writes in place of `draft`. */
  predicate IsVerdict(status: string) {
    status in ["expired", "accepted", "rejected", "edit_requested"]
  }

  function Stamp(status: string): string {
    "status: " + status
  }

  /** `sub("status: ...", block, count=1)`. */
  function Restamp(fm: string, status: string): string
    requires IsDraft(fm)
  {
    var i := FirstDraft(fm, 0).value;
    fm[..i] + Stamp(status) + fm[DraftMatch(fm, i).value..]
  }

  // --------------------------------------------------------------- the rewrite is safe

  /** Splicing the rewritten block back leaves it as the page's block and leaves the body alone. */
  lemma RestampKeepsBlock(text: string, status: string)
    requires Block(text).Some? && IsDraft(Block(text).value) && IsVerdict(status)
    ensures var page := Restamp(Block(text).value, status) + Body(text);
            Block(page) == Some(Restamp(Block(text).value, status)) && Body(page) == Body(text)
  {
    var fm, body := Block(text).value, Body(text);
    var i := FirstDraft(fm, 0).value;
    var e, stamp := DraftMatch(fm, i).value, Stamp(status);
    BlockShape(text);
    FirstDraftShape(fm);
    VerdictShape(status);
    assert At(fm, KEY, i) && i + |KEY| < e;
    hide DraftMatch, FirstDraft, IsVerdict, Block, Stamp;
    AtChar(text, "---", 0, 0);
    AtChar(text, "---", 0, 1);
    AtChar(text, "---", 0, 2);
    SplicedBlock(text, fm, body, i, e, stamp);
  }

  lemma BlockShape(text: string)
    requires Block(text).Some?
    ensures var fm := Block(text).value;
            text == fm + Body(text) && At(text, FENCE, |fm|) && At(text, "---", 0)
            && forall j :: 3 <= j < |fm| ==> !At(text, FENCE, j)
  {
  }

  lemma SplicedBlock(text: string, fm: string, body: string, i: nat, e: nat, stamp: string)
    requires text == fm + body && At(text, "---", 0) && At(text, FENCE, |fm|)
    requires forall j :: 3 <= j < |fm| ==> !At(text, FENCE, j)
    requires 3 < i && i + |KEY| < e <= |fm| && At(fm, KEY, i)
    requires |stamp| > 4 && stamp[0] == 's' && '\n' !in stamp
    ensures var fm' := fm[..i] + stamp + fm[e..];
            Block(fm' + body) == Some(fm') && Body(fm' + body) == body
  {
    var fm' := fm[..i] + stamp + fm[e..];
    var page := fm' + body;
    assert page[0..3] == text[0..3];
    assert page[|fm'|..] == body == text[|fm|..];
    assert page[|fm'|..|fm'| + 4] == page[|fm'|..][..4] == text[|fm|..][..4] == text[|fm|..|fm| + 4];
    assert At(page, FENCE, |fm'|);
    forall k | 3 <= k < |fm'|
      ensures !At(page, FENCE, k)
    {
      NoNewFence(text, fm, body, i, e, stamp, k);
    }
    assert FindFrom(page, FENCE, 3) == Some(|fm'|);
    assert page[..|fm'|] == fm';
  }

  lemma NoNewFence(text: string, fm: string, body: string, i: nat, e: nat, stamp: string, k: nat)
    requires text == fm + body && 3 < i && i + |KEY| < e <= |fm| && At(fm, KEY, i)
    requires forall j :: 3 <= j < |fm| ==> !At(text, FENCE, j)
    requires |stamp| > 4 && stamp[0] == 's' && '\n' !in stamp
    requires 3 <= k < |fm[..i] + stamp + fm[e..]|
    ensures !At(fm[..i] + stamp + fm[e..] + body, FENCE, k)
  {
    var page := fm[..i] + stamp + fm[e..] + body;
    var shift := i + |stamp| - e;
    if k < i {
      if k + 4 <= i {
        assert page[k..k + 4] == text[k..k + 4];
        assert !At(text, FENCE, k);
      } else {
        assert page[k..k + 4][i - k] == page[i] == 's';
      }
    } else if k < i + |stamp| {
      assert page[k] == stamp[k - i];
      assert k + 4 <= |page| ==> page[k..k + 4][0] == page[k];
    } else {
      assert !At(text, FENCE, k - shift);
      assert page[k..] == text[k - shift..];
      assert k + 4 <= |page| ==>
          page[k..k + 4] == page[k..][..4] == text[k - shift..][..4] == text[k - shift..k - shift + 4];
    }
  }

  // ------------------------------------------------- what is left of the draft status

  lemma {:induction false} SkipSpaceAgrees(a: string, b: string, k: nat, stop: nat)
    requires k <= stop < |a| && stop < |b| && a[..stop + 1] == b[..stop + 1] && !IsSpace(a[stop])
    ensures SkipSpace(a, k) == SkipSpace(b, k) <= stop
    decreases stop - k
  {
    assert a[k] == a[..stop + 1][k] == b[..stop + 1][k] == b[k];
    if k < stop {
      SkipSpaceAgrees(a, b, k + 1, stop);
    } else {
      assert a[k] == a[stop];
    }
  }

  lemma {:induction false} LastLineEndAgrees(a: string, b: string, lo: nat, hi: nat)
    requires lo <= hi < |a| && hi < |b| && a[..hi + 1] == b[..hi + 1]
    ensures LastLineEnd(a, lo, hi) == LastLineEnd(b, lo, hi)
    decreases hi - lo
  {
    assert a[hi] == a[..hi + 1][hi] == b[..hi + 1][hi] == b[hi];
    if hi > lo {
      assert a[..hi] == a[..hi + 1][..hi] == b[..hi + 1][..hi] == b[..hi];
      LastLineEndAgrees(a, b, lo, hi - 1);
    }
  }

  lemma AtAgrees(a: string, b: string, pat: string, k: nat, stop: nat)
    requires stop <= |a| && stop <= |b| && a[..stop] == b[..stop] && k + |pat| <= stop
    ensures At(a, pat, k) == At(b, pat, k)
  {
    assert a[k..k + |pat|] == a[..stop][k..k + |pat|] == b[..stop][k..k + |pat|] == b[k..k + |pat|];
  }

  /** Texts that agree up to a line that begins with `s` have the same matches before that line. */
  lemma EarlierMatchesAgree(a: string, b: string, j: nat, i: nat)
    requires j < i < |a| && i < |b| && a[..i + 1] == b[..i + 1] && a[i] == 's' && a[i - 1] == '\n'
    ensures DraftMatch(a, j) == DraftMatch(b, j)
  {
    hide SkipSpace, WordMatch;
    assert b[i] == b[..i + 1][i] == a[..i + 1][i] == 's';
    assert forall k :: 0 <= k <= i ==> a[k] == a[..i + 1][k] == b[..i + 1][k] == b[k];
    if j + |KEY| > i - 1 {
      NoKeyAcross(a, j, i);
      NoKeyAcross(b, j, i);
    } else {
      AtAgrees(a, b, KEY, j, i + 1);
      if LineStart(a, j) && At(a, KEY, j) {
        SkipSpaceAgrees(a, b, j + |KEY|, i);
        var word := SkipQuote(a, SkipSpace(a, j + |KEY|));
        assert word == SkipQuote(b, SkipSpace(b, j + |KEY|)) && word <= i;
        EarlierWordAgrees(a, b, word, i);
      }
    }
  }

  lemma EarlierWordAgrees(a: string, b: string, word: nat, i: nat)
    requires 0 < i < |a| && word <= i < |b| && a[..i + 1] == b[..i + 1]
    requires a[i] == b[i] == 's' && a[i - 1] == b[i - 1] == '\n'
    ensures WordMatch(a, word) == WordMatch(b, word)
  {
    hide SkipSpace, LastLineEnd;
    if word + |DRAFT| > i - 1 {
      NoDraftAcross(a, word, i);
      NoDraftAcross(b, word, i);
    } else {
      AtAgrees(a, b, DRAFT, word, i + 1);
      var w := word + |DRAFT|;
      assert a[w] == a[..i + 1][w] == b[..i + 1][w] == b[w];
      var after := SkipQuote(a, w);
      assert after == SkipQuote(b, w) && after <= i;
      SkipSpaceAgrees(a, b, after, i);
      var run := SkipSpace(a, after);
      assert a[..run + 1] == a[..i + 1][..run + 1] == b[..i + 1][..run + 1] == b[..run + 1];
      LastLineEndAgrees(a, b, after, run);
    }
  }

  lemma AtChar(text: string, pat: string, k: nat, m: nat)
    requires At(text, pat, k) && m < |pat|
    ensures text[k + m] == pat[m]
  {
    assert text[k..k + |pat|][m] == text[k + m];
  }

  lemma NoKeyAcross(a: string, j: nat, i: nat)
    requires j < i < |a| && a[i - 1] == '\n' && j + |KEY| > i - 1
    ensures !At(a, KEY, j)
  {
    if At(a, KEY, j) {
      AtChar(a, KEY, j, i - 1 - j);
    }
  }

  lemma NoDraftAcross(a: string, word: nat, i: nat)
    requires 0 < i < |a| && word <= i && a[i] == 's' && a[i - 1] == '\n' && word + |DRAFT| > i - 1
    ensures !At(a, DRAFT, word)
  {
    if At(a, DRAFT, word) {
      AtChar(a, DRAFT, word, if word < i then i - 1 - word else 0);
    }
  }

  lemma {:induction false} SkipSpaceShifts(a: string, b: string, k: nat, cut: nat, cut': nat)
    requires cut <= |a| && cut' <= |b| && a[cut..] == b[cut'..] && cut <= k <= |a|
    ensures SkipSpace(b, k - cut + cut') == SkipSpace(a, k) - cut + cut'
    decreases |a| - k
  {
    if k < |a| {
      assert a[k] == a[cut..][k - cut] == b[cut'..][k - cut] == b[k - cut + cut'];
      if IsSpace(a[k]) {
        SkipSpaceShifts(a, b, k + 1, cut, cut');
      }
    }
  }

  lemma {:induction false} LastLineEndShifts(a: string, b: string, lo: nat, hi: nat, cut: nat, cut': nat)
    requires cut <= |a| && cut' <= |b| && a[cut..] == b[cut'..] && cut <= lo <= hi <= |a|
    ensures LastLineEnd(b, lo - cut + cut', hi - cut + cut')
            == (match LastLineEnd(a, lo, hi) case None => None case Some(r) => Some(r - cut + cut'))
    decreases hi - lo
  {
    assert hi < |a| ==> a[hi] == a[cut..][hi - cut] == b[cut'..][hi - cut] == b[hi - cut + cut'];
    if hi > lo {
      LastLineEndShifts(a, b, lo, hi - 1, cut, cut');
    }
  }

  lemma AtShifts(a: string, b: string, pat: string, k: nat, cut: nat, cut': nat)
    requires cut <= |a| && cut' <= |b| && a[cut..] == b[cut'..] && cut <= k
    ensures At(a, pat, k) == At(b, pat, k - cut + cut')
  {
    var m := k - cut;
    if k + |pat| <= |a| {
      assert a[k..k + |pat|] == a[cut..][m..m + |pat|] == b[cut'..][m..m + |pat|] == b[m + cut'..m + cut' + |pat|];
    }
  }

  lemma SkipQuoteShifts(a: string, b: string, k: nat, cut: nat, cut': nat)
    requires cut <= |a| && cut' <= |b| && a[cut..] == b[cut'..] && cut <= k <= |a|
    ensures k - cut + cut' <= |b| && SkipQuote(b, k - cut + cut') == SkipQuote(a, k) - cut + cut'
  {
    assert k < |a| ==> a[k] == a[cut..][k - cut] == b[cut'..][k - cut] == b[k - cut + cut'];
  }

  lemma WordMatchShifts(a: string, b: string, word: nat, cut: nat, cut': nat)
    requires cut <= |a| && cut' <= |b| && a[cut..] == b[cut'..] && cut <= word
    ensures WordMatch(b, word - cut + cut').Some? == WordMatch(a, word).Some?
  {
    hide SkipSpace, SkipQuote, LastLineEnd;
    AtShifts(a, b, DRAFT, word, cut, cut');
    if At(a, DRAFT, word) {
      SkipQuoteShifts(a, b, word + |DRAFT|, cut, cut');
      var after := SkipQuote(a, word + |DRAFT|);
      QuoteAdvances(a, word + |DRAFT|);
      SkipSpaceShifts(a, b, after, cut, cut');
      LastLineEndShifts(a, b, after, SkipSpace(a, after), cut, cut');
    }
  }

  lemma QuoteAdvances(fm: string, k: nat)
    requires k <= |fm|
    ensures k <= SkipQuote(fm, k) <= |fm|
  {
  }

  /** Texts that share a tail have the same matches strictly inside it. */
  lemma LaterMatchesShift(a: string, b: string, j: nat, cut: nat, cut': nat)
    requires cut <= |a| && cut' <= |b| && a[cut..] == b[cut'..] && cut < j
    ensures DraftMatch(b, j - cut + cut').Some? == DraftMatch(a, j).Some?
  {
    hide SkipSpace, SkipQuote, WordMatch;
    var j' := j - cut + cut';
    assert j <= |a| ==> a[j - 1] == a[cut..][j - 1 - cut] == b[cut'..][j - 1 - cut] == b[j' - 1];
    AtShifts(a, b, KEY, j, cut, cut');
    if At(a, KEY, j) {
      SkipSpaceShifts(a, b, j + |KEY|, cut, cut');
      var s := SkipSpace(a, j + |KEY|);
      SkipQuoteShifts(a, b, s, cut, cut');
      QuoteAdvances(a, s);
      WordMatchShifts(a, b, SkipQuote(a, s), cut, cut');
    }
  }

  /** Past the key, a match is made of white space, quotes and the word: no `s` in it. */
  lemma MatchHasNoS(fm: string, i: nat, k: nat)
    requires DraftMatch(fm, i).Some? && i + |KEY| <= k < DraftMatch(fm, i).value
    ensures fm[k] != 's'
  {
    var gap := SkipSpace(fm, i + |KEY|);
    var word := SkipQuote(fm, gap);
    var after := SkipQuote(fm, word + |DRAFT|);
    if word <= k < word + |DRAFT| {
      AtChar(fm, DRAFT, word, k - word);
    }
    assert after <= DraftMatch(fm, i).value <= SkipSpace(fm, after);
  }

  lemma KeyHasNoBreak(m: nat)
    requires m < |KEY|
    ensures KEY[m] != '\n'
  {
    assert KEY == ['s', 't', 'a', 't', 'u', 's', ':'];
  }

  /** Inside the match itself no other match starts. */
  lemma NoMatchInside(fm: string, i: nat, j: nat)
    requires DraftMatch(fm, i).Some? && i < j <= DraftMatch(fm, i).value
    ensures DraftMatch(fm, j).None?
  {
    hide DraftMatch;
    var e := DraftMatch(fm, i).value;
    if j <= i + |KEY| {
      AtChar(fm, KEY, i, j - 1 - i);
      KeyHasNoBreak(j - 1 - i);
    } else {
      if j < e {
        MatchHasNoS(fm, i, j);
      }
      if At(fm, KEY, j) {
        AtChar(fm, KEY, j, 0);
      }
    }
    NoKeyLineNoMatch(fm, j);
  }

  lemma NoKeyLineNoMatch(fm: string, j: nat)
    requires !LineStart(fm, j) || !At(fm, KEY, j)
    ensures DraftMatch(fm, j).None?
  {
  }

  /** The rewritten line itself reads as no draft. */
  lemma StampNoMatch(b: string, stamp: string, i: nat, j: nat)
    requires i + |stamp| <= |b| && b[i..i + |stamp|] == stamp && i <= j <= i + |stamp|
    requires '\n' !in stamp && |stamp| > 8 && stamp[7] == ' '
    requires !IsSpace(stamp[8]) && !IsQuote(stamp[8]) && stamp[8] != 'd'
    ensures DraftMatch(b, j).None?
  {
    assert b[i..i + |stamp|][8] == b[i + 8] && b[i..i + |stamp|][7] == b[i + 7];
    if j > i {
      assert b[j - 1] == b[i..i + |stamp|][j - 1 - i] == stamp[j - 1 - i];
    } else {
      assert SkipSpace(b, i + 8) == i + 8 && SkipSpace(b, i + 7) == i + 8;
      if At(b, DRAFT, i + 8) {
        AtChar(b, DRAFT, i + 8, 0);
      }
    }
  }

  lemma VerdictShape(status: string)
    requires IsVerdict(status)
    ensures var stamp := Stamp(status);
            '\n' !in stamp && |stamp| > 8 && stamp[0] == 's' && stamp[7] == ' '
            && !IsSpace(stamp[8]) && !IsQuote(stamp[8]) && stamp[8] != 'd'
  {
    var stamp := Stamp(status);
    assert stamp[8] == status[0];
    assert '\n' !in status;
  }

  /** The matches of a block whose first draft line has been replaced by a verdict line. */
  lemma SplicedMatches(fm: string, b: string, stamp: string, i: nat, e: nat, j: nat)
    requires i < e <= |fm| && fm[i] == 's' && (i > 0 ==> fm[i - 1] == '\n')
    requires b == fm[..i] + stamp + fm[e..]
    requires '\n' !in stamp && |stamp| > 8 && stamp[0] == 's' && stamp[7] == ' '
    requires !IsSpace(stamp[8]) && !IsQuote(stamp[8]) && stamp[8] != 'd'
    ensures j < i ==> DraftMatch(b, j) == DraftMatch(fm, j)
    ensures i <= j <= i + |stamp| ==> DraftMatch(b, j).None?
    ensures j > i + |stamp| ==> DraftMatch(b, j).Some? == DraftMatch(fm, j - i - |stamp| + e).Some?
  {
    var cut' := i + |stamp|;
    hide DraftMatch;
    if j < i {
      assert b[..i + 1] == fm[..i] + ['s'] == fm[..i + 1];
      EarlierMatchesAgree(fm, b, j, i);
    } else if j <= cut' {
      assert b[i..cut'] == stamp;
      StampNoMatch(b, stamp, i, j);
    } else {
      assert b[cut'..] == fm[e..];
      LaterMatchesShift(fm, b, j - cut' + e, e, cut');
    }
  }

  lemma FirstDraftShape(fm: string)
    requires IsDraft(fm)
    ensures var i := FirstDraft(fm, 0).value;
            i < DraftMatch(fm, i).value <= |fm| && fm[i] == 's' && (i > 0 ==> fm[i - 1] == '\n')
  {
    hide DraftMatch, FirstDraft;
    AtChar(fm, KEY, FirstDraft(fm, 0).value, 0);
  }

  lemma OnlyLineRestamped(fm: string, status: string)
    requires OneDraftLine(fm) && IsVerdict(status)
    ensures !IsDraft(Restamp(fm, status))
  {
    hide DraftMatch, FirstDraft, IsVerdict, Stamp;
    var i, b, stamp := FirstDraft(fm, 0).value, Restamp(fm, status), Stamp(status);
    var e := DraftMatch(fm, i).value;
    FirstDraftShape(fm);
    VerdictShape(status);
    if IsDraft(b) {
      var j := FirstDraft(b, 0).value;
      SplicedMatches(fm, b, stamp, i, e, j);
      if j > i + |stamp| {
        MatchWithin(fm, j - i - |stamp| + e);
      }
    }
  }

  lemma SecondLineStays(fm: string, status: string, j: nat)
    requires IsDraft(fm) && IsVerdict(status) && FirstDraft(fm, 0).value < j && DraftMatch(fm, j).Some?
    ensures IsDraft(Restamp(fm, status))
  {
    hide DraftMatch, FirstDraft, IsVerdict, Stamp, IsDraft;
    var i, stamp := FirstDraft(fm, 0).value, Stamp(status);
    var e := DraftMatch(fm, i).value;
    var b := fm[..i] + stamp + fm[e..];
    FirstDraftShape(fm);
    VerdictShape(status);
    if j <= e {
      NoMatchInside(fm, i, j);
    }
    var k := j - e + i + |stamp|;
    SplicedMatches(fm, b, stamp, i, e, k);
    MatchIsDraft(b, k);
  }

  /**
   One rewrite takes the page out of draft if and only if its block has a single draft line; a block
   with a second one still reads as a draft, and can be rewritten again.
   */
  lemma RestampLeavesDraft(fm: string, status: string)
    requires IsDraft(fm) && IsVerdict(status)
    ensures !IsDraft(Restamp(fm, status)) <==> OneDraftLine(fm)
  {
    if OneDraftLine(fm) {
      OnlyLineRestamped(fm, status);
    } else {
      SecondLineStays(fm, status, FirstDraft(fm, FirstDraft(fm, 0).value + 1).value);
    }
  }

  lemma MatchIsDraft(fm: string, j: nat)
    requires DraftMatch(fm, j).Some?
    ensures IsDraft(fm)
  {
    hide DraftMatch;
    MatchWithin(fm, j);
  }

  lemma MatchWithin(fm: string, j: nat)
    requires DraftMatch(fm, j).Some?
    ensures j < |fm|
  {
  }
}
