/** What the draft-status pattern matches, and which status a rewritten block carries, read off the text. */
module StatusLine {
  import opened Prelude
  import opened Words
  import opened Frontmatter

  // ------------------------------------------------------------------ the pattern

  predicate QuotesUpTo(fm: string, a: nat, b: nat) {
    b == a || (b == a + 1 && a < |fm| && (fm[a] == '\'' || fm[a] == '"'))
  }

  ghost predicate SpacesUpTo(fm: string, a: nat, b: nat) {
    a <= b <= |fm| && forall k :: a <= k < b ==> IsSpace(fm[k])
  }

  /**
   One reading of `^status:\s*['"]?draft['"]?\s*$` on the block: the key at `i`, the value from `b`
   behind white space up to `a` and perhaps a quote, and behind it perhaps a quote up to `c` and white
   space up to a line end `e`.
   */
  ghost predicate DraftSpan(fm: string, i: nat, a: nat, b: nat, c: nat, e: nat) {
    && i + 7 <= |fm| && (i == 0 || fm[i - 1] == '\n') && fm[i..i + 7] == "status:"
    && SpacesUpTo(fm, i + 7, a) && QuotesUpTo(fm, a, b)
    && b + 5 <= |fm| && fm[b..b + 5] == "draft"
    && QuotesUpTo(fm, b + 5, c) && SpacesUpTo(fm, c, e)
    && (e == |fm| || fm[e] == '\n')
  }

  ghost predicate DraftLine(fm: string, i: nat, e: nat) {
    exists a, b, c :: DraftSpan(fm, i, a, b, c, e)
  }

  lemma {:induction false} LastLineEndIsLast(fm: string, lo: nat, hi: nat, k: nat)
    requires lo <= k <= hi <= |fm| && LineEnd(fm, k)
    ensures LastLineEnd(fm, lo, hi).Some? && k <= LastLineEnd(fm, lo, hi).value
    decreases hi - lo
  {
    if !LineEnd(fm, hi) { LastLineEndIsLast(fm, lo, hi - 1, k); }
  }

  /** The greedy match is one reading ... */
  lemma MatchIsSpan(fm: string, i: nat)
    requires DraftMatch(fm, i).Some?
    ensures DraftLine(fm, i, DraftMatch(fm, i).value)
  {
    var a := SkipSpace(fm, i + |KEY|);
    var b := SkipQuote(fm, a);
    var c := SkipQuote(fm, b + |DRAFT|);
    assert DraftSpan(fm, i, a, b, c, DraftMatch(fm, i).value);
  }

  /** ... and every reading is one it makes, or a shorter one. */
  lemma SpanIsMatched(fm: string, i: nat, a: nat, b: nat, c: nat, e: nat)
    requires DraftSpan(fm, i, a, b, c, e)
    ensures DraftMatch(fm, i).Some? && e <= DraftMatch(fm, i).value
  {
    AtChar(fm, DRAFT, b, 0);
    assert fm[b] == 'd';
    assert SkipSpace(fm, i + |KEY|) == a;
    assert SkipQuote(fm, a) == b;
    assert SkipQuote(fm, b + |DRAFT|) == c;
    LastLineEndIsLast(fm, c, SkipSpace(fm, c), e);
  }

  /** The matcher's answer is the longest reading of the pattern at that position, and `None` if there is none. */
  lemma DraftMatchExactlyWhen(fm: string, i: nat)
    ensures DraftMatch(fm, i).Some? <==> exists e: nat :: DraftLine(fm, i, e)
    ensures DraftMatch(fm, i).Some? ==>
              DraftLine(fm, i, DraftMatch(fm, i).value)
              && forall e: nat :: DraftLine(fm, i, e) ==> e <= DraftMatch(fm, i).value
  {
    hide DraftMatch, DraftSpan;
    if DraftMatch(fm, i).Some? {
      MatchIsSpan(fm, i);
    }
    forall e: nat | DraftLine(fm, i, e)
      ensures DraftMatch(fm, i).Some? && e <= DraftMatch(fm, i).value
    {
      var a, b, c :| DraftSpan(fm, i, a, b, c, e);
      SpanIsMatched(fm, i, a, b, c, e);
    }
  }

  /** The first line of the block that reads as a draft status, and where its longest reading ends. */
  ghost predicate FirstDraftLine(fm: string, i: nat, e: nat) {
    && DraftLine(fm, i, e) && (forall e': nat :: DraftLine(fm, i, e') ==> e' <= e)
    && forall k: nat, e': nat :: k < i ==> !DraftLine(fm, k, e')
  }

  /** A block is a draft exactly when some line of it reads as one. */
  lemma IsDraftExactlyWhen(fm: string)
    ensures IsDraft(fm) <==> exists i: nat, e: nat :: DraftLine(fm, i, e)
    ensures IsDraft(fm) ==>
              FirstDraftLine(fm, FirstDraft(fm, 0).value, DraftMatch(fm, FirstDraft(fm, 0).value).value)
  {
    hide DraftMatch, DraftLine;
    if IsDraft(fm) {
      var i := FirstDraft(fm, 0).value;
      DraftMatchExactlyWhen(fm, i);
      forall k: nat, e': nat | k < i
        ensures !DraftLine(fm, k, e')
      {
        DraftMatchExactlyWhen(fm, k);
      }
    } else if i: nat, e: nat :| DraftLine(fm, i, e) {
      DraftMatchExactlyWhen(fm, i);
      MatchIsDraft(fm, i);
    }
  }

  // -------------------------------------------------------------------- the fences

  predicate DashesAt(text: string, k: nat) {
    k + 3 <= |text| && text[k] == '-' && text[k + 1] == '-' && text[k + 2] == '-'
  }

  predicate ClosesAt(text: string, k: nat) {
    k < |text| && text[k] == '\n' && DashesAt(text, k + 1)
  }

  lemma FenceIsClose(text: string, k: nat)
    ensures At(text, "---", k) <==> DashesAt(text, k)
    ensures At(text, FENCE, k) <==> ClosesAt(text, k)
  {
    if k + 3 <= |text| {
      var d := text[k..k + 3];
      assert d[0] == text[k] && d[1] == text[k + 1] && d[2] == text[k + 2];
    }
    if k + 4 <= |text| {
      var f := text[k..k + 4];
      assert f[0] == text[k] && f[1] == text[k + 1] && f[2] == text[k + 2] && f[3] == text[k + 3];
    }
  }

  /** The block is all up to the first closing fence behind the opening one; a page without both has none. */
  lemma BlockExactlyWhen(text: string, fm: string)
    ensures Block(text) == Some(fm)
            <==> && DashesAt(text, 0) && 3 <= |fm| < |text| && text[..|fm|] == fm && ClosesAt(text, |fm|)
                 && forall k :: 3 <= k < |fm| ==> !ClosesAt(text, k)
  {
    forall k: nat
      ensures At(text, FENCE, k) <==> ClosesAt(text, k)
    {
      FenceIsClose(text, k);
    }
    FenceIsClose(text, 0);
    var found := FindFrom(text, FENCE, 3);
    hide At, ClosesAt, DashesAt, FindFrom;
    if Block(text) == Some(fm) {
      assert found == Some(|fm|);
      assert ClosesAt(text, |fm|);
    }
    ClosesWithin(text);
  }

  lemma ClosesWithin(text: string)
    ensures forall k: nat :: ClosesAt(text, k) ==> k < |text|
    ensures DashesAt(text, 0) ==> |text| >= 3
  {
  }

  // ------------------------------------------------------------------- the reader

  function UntilBreak(s: string): string {
    if s == "" || s[0] == '\n' then "" else [s[0]] + UntilBreak(s[1..])
  }

  /** The value on the line with the key at `i`: all behind the key and one blank, up to the line end. */
  function StatusAt(fm: string, i: nat): string
    requires i + 8 <= |fm|
  {
    UntilBreak(fm[i + 8..])
  }

  lemma {:induction false} UntilBreakIs(s: string, rest: string)
    requires '\n' !in s && (rest == "" || rest[0] == '\n')
    ensures UntilBreak(s + rest) == s
  {
    if s == "" {
      assert s + rest == rest;
    } else {
      assert (s + rest)[1..] == s[1..] + rest;
      UntilBreakIs(s[1..], rest);
    }
  }

  /**
   The page `now` is the page `was` with the first line of its block that reads as a draft replaced by
   one that reads this status; all before and behind that line, and the body, are as they were.
   */
  ghost predicate Rewritten(was: string, now: string, status: string) {
    && Block(was).Some? && Block(now).Some? && Body(now) == Body(was)
    && exists i: nat, e: nat ::
         FirstDraftLine(Block(was).value, i, e) && Respelled(Block(was).value, Block(now).value, i, e, status)
  }

  ghost predicate Respelled(fm: string, fm': string, i: nat, e: nat, status: string) {
    && i <= e <= |fm| && i + 8 + |status| <= |fm'|
    && fm'[..i] == fm[..i] && fm'[i..i + 8] == "status: " && StatusAt(fm', i) == status
    && fm'[i + 8 + |status|..] == fm[e..]
  }

  lemma RestampRespells(fm: string, status: string)
    requires IsDraft(fm) && '\n' !in status
    ensures var i := FirstDraft(fm, 0).value;
            Respelled(fm, Restamp(fm, status), i, DraftMatch(fm, i).value, status)
  {
    var i := FirstDraft(fm, 0).value;
    var e, now := DraftMatch(fm, i).value, Restamp(fm, status);
    hide DraftMatch, FirstDraft, UntilBreak;
    UntilBreakIs(status, fm[e..]);
    Spliced(fm[..i], "status: ", status, fm[e..]);
  }

  lemma Spliced(head: string, key: string, value: string, tail: string)
    ensures var s, n := head + (key + value) + tail, |head| + |key|;
      && s[..|head|] == head && s[|head|..n] == key && s[n..] == value + tail && s[n + |value|..] == tail
  {
  }

  /** The rewrite, read off the page: a verdict's own word is what the page says afterwards. */
  lemma RestampRewrites(text: string, status: string)
    requires Block(text).Some? && IsDraft(Block(text).value) && IsVerdict(status)
    ensures Rewritten(text, Restamp(Block(text).value, status) + Body(text), status)
  {
    var fm := Block(text).value;
    RestampKeepsBlock(text, status);
    VerdictHasNoBreak(status);
    hide *;
    IsDraftExactlyWhen(fm);
    RestampRespells(fm, status);
    RewrittenBy(text, Restamp(fm, status) + Body(text), status);
  }

  lemma RewrittenBy(was: string, now: string, status: string)
    requires Block(was).Some? && IsDraft(Block(was).value) && Body(was) == Body(was)
    requires Block(now) == Some(Restamp(Block(was).value, status)) && Body(now) == Body(was)
    requires var fm := Block(was).value; var i := FirstDraft(fm, 0).value;
             && FirstDraftLine(fm, i, DraftMatch(fm, i).value)
             && Respelled(fm, Restamp(fm, status), i, DraftMatch(fm, i).value, status)
    ensures Rewritten(was, now, status)
  {
    hide FirstDraftLine, Respelled, Restamp, Block, Body, FirstDraft, DraftMatch;
  }

  lemma VerdictHasNoBreak(status: string)
    requires IsVerdict(status)
    ensures '\n' !in status
  {
  }
}
