/** Which of several overlapping matches are redacted, and the text rebuilt around them. */
module Redaction {
  import opened Ordering

  /** A match of one pattern at `text[lo..hi]`. */
  datatype Match = Match(lo: nat, hi: nat, kind: string, replacement: string)

  ghost predicate InText(text: string, ms: seq<Match>) {
    forall i :: 0 <= i < |ms| ==> ms[i].lo <= ms[i].hi <= |text|
  }

  function Length(m: Match): int {
    m.hi - m.lo
  }

  predicate Overlap(a: Match, b: Match) {
    a.lo < b.hi && b.lo < a.hi
  }

  /** The sort key: longest first, then earliest, then by kind. */
  predicate Outranks(a: Match, b: Match) {
    || Length(a) > Length(b)
    || (Length(a) == Length(b) && (a.lo < b.lo || (a.lo == b.lo && StrLess(a.kind, b.kind))))
  }

  /** A stable sort's insertion: behind everything that `m` does not outrank. */
  function InsertByRank(s: seq<Match>, m: Match): seq<Match> {
    if s == [] || !Outranks(m, s[|s| - 1]) then s + [m]
    else InsertByRank(s[..|s| - 1], m) + [s[|s| - 1]]
  }

  function ByRank(ms: seq<Match>): seq<Match> {
    if ms == [] then [] else InsertByRank(ByRank(ms[..|ms| - 1]), ms[|ms| - 1])
  }

  function InsertByStart(s: seq<Match>, m: Match): seq<Match> {
    if s == [] || s[|s| - 1].lo <= m.lo then s + [m]
    else InsertByStart(s[..|s| - 1], m) + [s[|s| - 1]]
  }

  function ByStart(ms: seq<Match>): seq<Match> {
    if ms == [] then [] else InsertByStart(ByStart(ms[..|ms| - 1]), ms[|ms| - 1])
  }

  /** Each match in turn, unless it overlaps one already taken. */
  function Greedy(ranked: seq<Match>): seq<Match> {
    if ranked == [] then []
    else
      var chosen, m := Greedy(ranked[..|ranked| - 1]), ranked[|ranked| - 1];
      if exists c :: c in chosen && Overlap(m, c) then chosen else chosen + [m]
  }

  function Chosen(ms: seq<Match>): seq<Match> {
    ByStart(Greedy(ByRank(ms)))
  }

  /** `text[a:b]`, empty when `a` is past `b`. */
  function Slice(text: string, a: nat, b: nat): string
    requires b <= |text|
  {
    if a <= b then text[a..b] else ""
  }

  /** The text from `cursor` on with each span replaced. */
  function Rebuild(text: string, spans: seq<Match>, cursor: nat): string
    requires InText(text, spans) && cursor <= |text|
  {
    if spans == [] then text[cursor..]
    else
      var s := spans[0];
      Slice(text, cursor, s.lo) + s.replacement + Rebuild(text, spans[1..], s.hi)
  }

  /** `scrub_text`, given the matches of all patterns in the order they were collected. */
  method ScrubText(text: string, matches: seq<Match>) returns (out: string, spans: seq<Match>)
    requires InText(text, matches)
    ensures spans == Chosen(matches) && InText(text, spans)
    ensures out == Rebuild(text, spans, 0)
    ensures (forall m :: m in matches ==> m.lo < m.hi) ==> out == ByPosition(text, spans, 0)
  {
    hide ByRank, ByStart, Greedy, Rebuild, ByPosition;
    var ranked := SortByRank(matches);
    var chosen := SelectMatches(ranked);
    ChosenInText(text, matches);
    spans := SortByStart(chosen);
    out := EmitSpans(text, spans);
    hide *;
    if forall m :: m in matches ==> m.lo < m.hi {
      RebuiltByPosition(text, matches);
    }
  }

  /** `matches.sort(key=...)`: longest first, then by start and kind. */
  method SortByRank(matches: seq<Match>) returns (ranked: seq<Match>)
    ensures ranked == ByRank(matches)
  {
    ranked := [];
    for i := 0 to |matches|
      invariant ranked == ByRank(matches[..i])
    {
      assert matches[..i + 1][..i] == matches[..i];
      ranked := InsertByRank(ranked, matches[i]);
    }
    assert matches[..|matches|] == matches;
  }

  /** `chosen.sort(key=...)`: by start. */
  method SortByStart(chosen: seq<Match>) returns (spans: seq<Match>)
    ensures spans == ByStart(chosen)
  {
    spans := [];
    for i := 0 to |chosen|
      invariant spans == ByStart(chosen[..i])
    {
      assert chosen[..i + 1][..i] == chosen[..i];
      spans := InsertByStart(spans, chosen[i]);
    }
    assert chosen[..|chosen|] == chosen;
  }

  /** The greedy loop. */
  method SelectMatches(ranked: seq<Match>) returns (chosen: seq<Match>)
    ensures chosen == Greedy(ranked)
  {
    chosen := [];
    for i := 0 to |ranked|
      invariant chosen == Greedy(ranked[..i])
    {
      assert ranked[..i + 1][..i] == ranked[..i];
      var cand := ranked[i];
      if !exists c :: c in chosen && Overlap(cand, c) {
        chosen := chosen + [cand];
      }
    }
    assert ranked[..|ranked|] == ranked;
  }

  /** The rebuilding loop. */
  method EmitSpans(text: string, spans: seq<Match>) returns (out: string)
    requires InText(text, spans)
    ensures out == Rebuild(text, spans, 0)
  {
    out := "";
    var cursor := 0;
    for i := 0 to |spans|
      invariant 0 <= cursor <= |text|
      invariant out + Rebuild(text, spans[i..], cursor) == Rebuild(text, spans, 0)
    {
      var s := spans[i];
      assert spans[i..][0] == s && spans[i..][1..] == spans[i + 1..];
      var part := Slice(text, cursor, s.lo) + s.replacement;
      assert out + (part + Rebuild(text, spans[i + 1..], s.hi)) == out + part + Rebuild(text, spans[i + 1..], s.hi);
      out := out + part;
      cursor := s.hi;
    }
    out := out + text[cursor..];
  }

  // ---------- the sorts lose nothing ----------

  lemma InitAndLast(ms: seq<Match>)
    requires ms != []
    ensures multiset(ms) == multiset(ms[..|ms| - 1]) + multiset{ms[|ms| - 1]}
  {
    assert ms == ms[..|ms| - 1] + [ms[|ms| - 1]];
  }

  lemma {:induction false} ByRankKeeps(ms: seq<Match>)
    ensures multiset(ByRank(ms)) == multiset(ms)
  {
    if ms != [] {
      var n := |ms| - 1;
      ByRankKeeps(ms[..n]);
      InsertByRankAdds(ByRank(ms[..n]), ms[n]);
      InitAndLast(ms);
      hide InsertByRank;
    }
  }

  lemma {:induction false} InsertByRankAdds(s: seq<Match>, m: Match)
    ensures multiset(InsertByRank(s, m)) == multiset(s) + multiset{m}
  {
    if s != [] && Outranks(m, s[|s| - 1]) {
      InsertByRankAdds(s[..|s| - 1], m);
      assert s == s[..|s| - 1] + [s[|s| - 1]];
    }
  }

  lemma {:induction false} ByStartKeeps(ms: seq<Match>)
    ensures multiset(ByStart(ms)) == multiset(ms)
  {
    if ms != [] {
      var n := |ms| - 1;
      ByStartKeeps(ms[..n]);
      InsertByStartAdds(ByStart(ms[..n]), ms[n]);
      InitAndLast(ms);
      hide InsertByStart;
    }
  }

  lemma {:induction false} InsertByStartAdds(s: seq<Match>, m: Match)
    ensures multiset(InsertByStart(s, m)) == multiset(s) + multiset{m}
  {
    if s != [] && s[|s| - 1].lo > m.lo {
      InsertByStartAdds(s[..|s| - 1], m);
      assert s == s[..|s| - 1] + [s[|s| - 1]];
    }
  }

  lemma SameElements(s: seq<Match>, t: seq<Match>)
    requires multiset(s) == multiset(t)
    ensures |s| == |t| && forall m :: m in s <==> m in t
  {
    assert |s| == |multiset(s)| == |multiset(t)|;
    forall m
      ensures m in s <==> m in t
    {
      assert m in s <==> m in multiset(s);
      assert m in t <==> m in multiset(t);
    }
  }

  lemma {:induction false} GreedyTakesFromList(ranked: seq<Match>)
    ensures forall m :: m in Greedy(ranked) ==> m in ranked
  {
    if ranked != [] { GreedyTakesFromList(ranked[..|ranked| - 1]); }
  }

  lemma ChosenElements(ms: seq<Match>)
    ensures forall m :: m in Chosen(ms) <==> m in Greedy(ByRank(ms))
    ensures forall m :: m in ByRank(ms) <==> m in ms
    ensures forall m :: m in Chosen(ms) ==> m in ms
  {
    ByRankKeeps(ms);
    SameElements(ByRank(ms), ms);
    GreedyTakesFromList(ByRank(ms));
    ByStartKeeps(Greedy(ByRank(ms)));
    SameElements(Chosen(ms), Greedy(ByRank(ms)));
  }

  lemma ChosenInText(text: string, ms: seq<Match>)
    requires InText(text, ms)
    ensures InText(text, Chosen(ms))
  {
    ChosenElements(ms);
    forall i | 0 <= i < |Chosen(ms)|
      ensures Chosen(ms)[i].lo <= Chosen(ms)[i].hi <= |text|
    {
      assert Chosen(ms)[i] in ms;
    }
  }

  // ---------- what is chosen ----------

  ghost predicate Disjoint(s: seq<Match>) {
    forall i, j :: 0 <= i < j < |s| ==> !Overlap(s[i], s[j])
  }

  lemma DisjointElements(s: seq<Match>, a: Match, b: Match)
    requires Disjoint(s)
    ensures a in s && b in s && a != b ==> !Overlap(a, b) && !Overlap(b, a)
  {
    if a in s && b in s && a != b {
      var i, j :| 0 <= i < |s| && 0 <= j < |s| && s[i] == a && s[j] == b;
      assert if i < j then !Overlap(s[i], s[j]) else !Overlap(s[j], s[i]);
    }
  }

  ghost predicate LongestFirst(s: seq<Match>) {
    forall i, j :: 0 <= i < j < |s| ==> Length(s[i]) >= Length(s[j])
  }

  lemma {:induction false} InsertKeepsLongestFirst(s: seq<Match>, m: Match)
    requires LongestFirst(s)
    ensures LongestFirst(InsertByRank(s, m))
  {
    if s != [] && Outranks(m, s[|s| - 1]) {
      var n := |s| - 1;
      var t := InsertByRank(s[..n], m);
      InsertKeepsLongestFirst(s[..n], m);
      InsertByRankAdds(s[..n], m);
      hide InsertByRank, StrLess;
      forall i | 0 <= i < |t|
        ensures Length(t[i]) >= Length(s[n])
      {
        assert t[i] in multiset(t);
        assert t[i] == m || t[i] in s[..n];
      }
    }
  }

  lemma {:induction false} ByRankIsLongestFirst(ms: seq<Match>)
    ensures LongestFirst(ByRank(ms))
  {
    if ms != [] {
      ByRankIsLongestFirst(ms[..|ms| - 1]);
      InsertKeepsLongestFirst(ByRank(ms[..|ms| - 1]), ms[|ms| - 1]);
    }
  }

  lemma {:induction false} GreedyIsDisjoint(ranked: seq<Match>)
    ensures Disjoint(Greedy(ranked))
  {
    if ranked != [] {
      var chosen := Greedy(ranked[..|ranked| - 1]);
      GreedyIsDisjoint(ranked[..|ranked| - 1]);
      assert forall i :: 0 <= i < |chosen| ==> chosen[i] in chosen;
    }
  }

  /** A match passed over overlaps one taken that is at least as long. */
  lemma {:induction false} GreedyCovers(ranked: seq<Match>, m: Match)
    requires LongestFirst(ranked) && m in ranked && m !in Greedy(ranked)
    ensures exists c :: c in Greedy(ranked) && Overlap(m, c) && Length(c) >= Length(m)
  {
    var n := |ranked| - 1;
    var init := ranked[..n];
    if m in init {
      GreedyCovers(init, m);
    } else {
      assert m == ranked[n];
      var c :| c in Greedy(init) && Overlap(m, c);
      GreedyTakesFromList(init);
      assert c in init;
    }
  }

  lemma {:induction false} InsertKeepsDisjoint(s: seq<Match>, m: Match)
    requires Disjoint(s) && forall c :: c in s ==> !Overlap(c, m)
    ensures Disjoint(InsertByStart(s, m))
  {
    if s == [] || s[|s| - 1].lo <= m.lo {
      assert forall i :: 0 <= i < |s| ==> s[i] in s;
    } else {
      var n := |s| - 1;
      var t := InsertByStart(s[..n], m);
      InsertKeepsDisjoint(s[..n], m);
      InsertByStartAdds(s[..n], m);
      assert InsertByStart(s, m) == t + [s[n]];
      hide InsertByStart;
      forall i | 0 <= i < |t|
        ensures !Overlap(t[i], s[n])
      {
        assert t[i] in multiset(t);
        if t[i] != m {
          assert t[i] in s[..n];
          var k :| 0 <= k < n && s[..n][k] == t[i];
          assert !Overlap(s[k], s[n]);
        } else {
          assert s[n] in s;
        }
      }
    }
  }

  lemma {:induction false} ByStartIsDisjoint(ms: seq<Match>)
    requires Disjoint(ms)
    ensures Disjoint(ByStart(ms))
  {
    if ms != [] {
      var n := |ms| - 1;
      ByStartIsDisjoint(ms[..n]);
      ByStartKeeps(ms[..n]);
      SameElements(ms[..n], ByStart(ms[..n]));
      forall c | c in ByStart(ms[..n])
        ensures !Overlap(c, ms[n])
      {
        var k :| 0 <= k < n && ms[..n][k] == c;
        assert !Overlap(ms[k], ms[n]);
      }
      InsertKeepsDisjoint(ByStart(ms[..n]), ms[n]);
    }
  }

  // ---------- which of two matches that overlap is taken ----------

  /** Longer, or as long and earlier, or from the same place and of no later kind. */
  predicate Precedes(a: Match, b: Match) {
    || a.hi - a.lo > b.hi - b.lo
    || (a.hi - a.lo == b.hi - b.lo
        && (a.lo < b.lo || (a.lo == b.lo && (a.kind == b.kind || StrLess(a.kind, b.kind)))))
  }

  lemma NotOutranked(a: Match, b: Match)
    ensures !Outranks(b, a) <==> Precedes(a, b)
  {
    StrLessTotal(a.kind, b.kind);
    StrLessIrreflexive(a.kind);
    if StrLess(a.kind, b.kind) && StrLess(b.kind, a.kind) { StrLessTransitive(a.kind, b.kind, a.kind); }
    hide StrLess;
  }

  lemma PrecedesThrough(a: Match, b: Match, c: Match)
    requires Precedes(a, b) && Precedes(b, c)
    ensures Precedes(a, c)
  {
    if StrLess(a.kind, b.kind) && StrLess(b.kind, c.kind) { StrLessTransitive(a.kind, b.kind, c.kind); }
    hide StrLess;
  }

  ghost predicate Ranked(s: seq<Match>) {
    forall i, j :: 0 <= i < j < |s| ==> Precedes(s[i], s[j])
  }

  lemma {:induction false} InsertKeepsRanked(s: seq<Match>, m: Match)
    requires Ranked(s)
    ensures Ranked(InsertByRank(s, m))
  {
    hide Outranks, Precedes;
    if s != [] {
      var n := |s| - 1;
      NotOutranked(s[n], m);
      if Outranks(m, s[n]) {
        InsertKeepsRanked(s[..n], m);
        InsertByRankAdds(s[..n], m);
        OutranksPrecedes(m, s[n]);
        LastPrecededByAll(s, InsertByRank(s[..n], m), m);
      } else {
        forall i | 0 <= i < n
          ensures Precedes(s[i], m)
        {
          PrecedesThrough(s[i], s[n], m);
        }
      }
    }
  }

  lemma OutranksPrecedes(a: Match, b: Match)
    requires Outranks(a, b)
    ensures Precedes(a, b)
  {
  }

  lemma LastPrecededByAll(s: seq<Match>, t: seq<Match>, m: Match)
    requires s != [] && Ranked(s) && Ranked(t) && Precedes(m, s[|s| - 1])
    requires multiset(t) == multiset(s[..|s| - 1]) + multiset{m}
    ensures Ranked(t + [s[|s| - 1]])
  {
    hide Precedes;
    var n := |s| - 1;
    forall i | 0 <= i < |t|
      ensures Precedes(t[i], s[n])
    {
      assert t[i] in multiset(t);
      if t[i] != m {
        assert t[i] in s[..n];
        var k :| 0 <= k < n && s[..n][k] == t[i];
        assert Precedes(s[k], s[n]);
      }
    }
  }

  lemma {:induction false} ByRankIsRanked(ms: seq<Match>)
    ensures Ranked(ByRank(ms))
  {
    if ms != [] {
      ByRankIsRanked(ms[..|ms| - 1]);
      InsertKeepsRanked(ByRank(ms[..|ms| - 1]), ms[|ms| - 1]);
      hide InsertByRank, Ranked;
    }
  }

  /** A match passed over overlaps one taken that precedes it. */
  lemma {:induction false} GreedyPrefers(ranked: seq<Match>, m: Match)
    requires Ranked(ranked) && m in ranked && m !in Greedy(ranked)
    ensures exists c :: c in Greedy(ranked) && Overlap(m, c) && Precedes(c, m)
  {
    hide Precedes;
    var n := |ranked| - 1;
    var init := ranked[..n];
    if m in init {
      GreedyPrefers(init, m);
    } else {
      assert m == ranked[n];
      var c :| c in Greedy(init) && Overlap(m, c);
      GreedyTakesFromList(init);
      assert c in init;
      var k :| 0 <= k < n && init[k] == c;
      assert Precedes(ranked[k], ranked[n]);
    }
  }

  /**
   Every match that is not chosen overlaps a chosen one that is longer, or as long and earlier, or from
   the same place and of no later kind.
   */
  lemma ChosenPrecede(ms: seq<Match>, m: Match)
    requires m in ms && m !in Chosen(ms)
    ensures exists c :: c in Chosen(ms) && Overlap(m, c) && Precedes(c, m)
  {
    ChosenElements(ms);
    ByRankIsRanked(ms);
    hide ByRank, ByStart, Greedy, Ranked, Precedes;
    GreedyPrefers(ByRank(ms), m);
  }

  /** The chosen spans never overlap, and every other match overlaps a chosen one at least as long. */
  lemma ChosenSpans(ms: seq<Match>)
    ensures Disjoint(Chosen(ms)) && forall m :: m in Chosen(ms) ==> m in ms
    ensures forall m :: m in ms && m !in Chosen(ms) ==>
              exists c :: c in Chosen(ms) && Overlap(m, c) && Length(c) >= Length(m)
  {
    var ranked := ByRank(ms);
    ChosenElements(ms);
    ByRankIsLongestFirst(ms);
    GreedyIsDisjoint(ranked);
    ByStartIsDisjoint(Greedy(ranked));
    hide ByRank, ByStart, Greedy, Disjoint, LongestFirst;
    forall m | m in ms && m !in Chosen(ms)
      ensures exists c :: c in Chosen(ms) && Overlap(m, c) && Length(c) >= Length(m)
    {
      GreedyCovers(ranked, m);
    }
  }

  ghost predicate Inside(p: nat, m: Match) {
    m.lo <= p < m.hi
  }

  ghost predicate Nested(ms: seq<Match>) {
    forall a, b :: a in ms && b in ms && Overlap(a, b) ==>
      (a.lo <= b.lo && b.hi <= a.hi) || (b.lo <= a.lo && a.hi <= b.hi)
  }

  /** When matches that overlap are nested, every matched character is replaced. */
  lemma NestedMatchesAreRedacted(ms: seq<Match>, m: Match, p: nat)
    requires Nested(ms) && m in ms && Inside(p, m)
    ensures exists c :: c in Chosen(ms) && Inside(p, c)
  {
    ChosenSpans(ms);
    hide Chosen, Disjoint;
    if m !in Chosen(ms) {
      var c :| c in Chosen(ms) && Overlap(m, c) && Length(c) >= Length(m);
      assert c in ms;
      assert Inside(p, c);
    }
  }

  ghost predicate CoveredAt(spans: seq<Match>, p: nat) {
    exists s :: s in spans && Inside(p, s)
  }

  /** No character of a match is left in the clear. */
  ghost predicate AllRedacted(ms: seq<Match>) {
    forall m, p :: m in ms && Inside(p, m) ==> CoveredAt(Chosen(ms), p)
  }

  lemma NestedIsRedacted(ms: seq<Match>)
    requires Nested(ms)
    ensures AllRedacted(ms)
  {
    hide Chosen, Nested;
    forall m, p | m in ms && Inside(p, m)
      ensures CoveredAt(Chosen(ms), p)
    {
      NestedMatchesAreRedacted(ms, m, p);
    }
  }

  /** Two matches that overlap: all of both is replaced if and only if one lies within the other. */
  lemma PairRedactedExactlyWhen(a: Match, b: Match)
    requires Overlap(a, b) && a.lo < a.hi && b.lo < b.hi
    ensures AllRedacted([a, b]) <==> Nested([a, b])
  {
    var ms := [a, b];
    if Nested(ms) {
      NestedIsRedacted(ms);
    } else {
      ChosenSpans(ms);
      hide Chosen;
      var spans := Chosen(ms);
      CrossingLeavesOne(a, b, spans);
    }
  }

  /**
   Matches of which every selection is replaced whole, whatever the patterns leave out, are exactly the
   nested ones: where two of them cross, those two alone leave a character.
   */
  lemma RedactedExactlyWhenNested(ms: seq<Match>)
    ensures (forall sub: seq<Match> {:trigger AllRedacted(sub)} ::
               (forall m :: m in sub ==> m in ms) ==> AllRedacted(sub))
            <==> Nested(ms)
  {
    if Nested(ms) {
      forall sub: seq<Match> | forall m :: m in sub ==> m in ms
        ensures AllRedacted(sub)
      {
        NestedIsRedacted(sub);
      }
    } else {
      var a, b :| a in ms && b in ms && Overlap(a, b)
                  && !(a.lo <= b.lo && b.hi <= a.hi) && !(b.lo <= a.lo && a.hi <= b.hi);
      PairRedactedExactlyWhen(a, b);
      assert a in [a, b] && b in [a, b] && !Nested([a, b]);
      assert !AllRedacted([a, b]);
    }
  }

  /** Where two spans cross, disjoint ones taken from them miss an end of one. */
  lemma CrossingLeavesOne(a: Match, b: Match, spans: seq<Match>)
    requires Overlap(a, b) && a.lo < a.hi && b.lo < b.hi && !Nested([a, b])
    requires Disjoint(spans) && forall c :: c in spans ==> c in [a, b]
    ensures exists m, p :: m in [a, b] && Inside(p, m) && !CoveredAt(spans, p)
  {
    DisjointElements(spans, a, b);
    var gone, kept := if a in spans then b else a, if a in spans then a else b;
    assert forall c :: c in spans ==> c == kept;
    assert gone in [a, b];
    if gone.lo < kept.lo {
      assert Inside(gone.lo, gone) && !CoveredAt(spans, gone.lo);
    } else {
      assert Inside(gone.hi - 1, gone) && !CoveredAt(spans, gone.hi - 1);
    }
  }

  // ---------- what the rebuilt text keeps ----------

  /** Each span starts no earlier than the one before it ends. */
  ghost predicate InOrder(spans: seq<Match>, cursor: nat) {
    spans == [] || (cursor <= spans[0].lo <= spans[0].hi && InOrder(spans[1..], spans[0].hi))
  }

  /** Characters from position `p` on that no span covers. */
  ghost function Uncovered(text: string, spans: seq<Match>, p: nat): string
    requires p <= |text|
    decreases |text| - p
  {
    if p == |text| then ""
    else (if CoveredAt(spans, p) then "" else [text[p]]) + Uncovered(text, spans, p + 1)
  }

  /** The text with every replacement left empty: only what was not redacted. */
  ghost function Kept(text: string, spans: seq<Match>, cursor: nat): string
    requires InText(text, spans) && cursor <= |text|
  {
    if spans == [] then text[cursor..]
    else Slice(text, cursor, spans[0].lo) + Kept(text, spans[1..], spans[0].hi)
  }

  lemma {:induction false} InOrderStarts(spans: seq<Match>, cursor: nat)
    requires InOrder(spans, cursor)
    ensures forall s :: s in spans ==> cursor <= s.lo <= s.hi
  {
    if spans != [] {
      InOrderStarts(spans[1..], spans[0].hi);
      forall s | s in spans
        ensures cursor <= s.lo <= s.hi
      {
        assert s == spans[0] || s in spans[1..];
      }
    }
  }

  lemma {:induction false} UncoveredGap(text: string, spans: seq<Match>, p: nat, q: nat)
    requires p <= q <= |text| && forall k :: p <= k < q ==> !CoveredAt(spans, k)
    ensures Uncovered(text, spans, p) == text[p..q] + Uncovered(text, spans, q)
    decreases q - p
  {
    hide CoveredAt;
    if p < q {
      UncoveredGap(text, spans, p + 1, q);
      var rest := Uncovered(text, spans, q);
      assert text[p..q] == [text[p]] + text[p + 1..q];
      assert [text[p]] + (text[p + 1..q] + rest) == [text[p]] + text[p + 1..q] + rest;
    } else {
      assert text[p..p] + Uncovered(text, spans, p) == Uncovered(text, spans, p);
    }
  }

  lemma {:induction false} UncoveredSpan(text: string, spans: seq<Match>, s: Match, p: nat)
    requires s in spans && s.lo <= p <= s.hi <= |text|
    ensures Uncovered(text, spans, p) == Uncovered(text, spans, s.hi)
    decreases s.hi - p
  {
    if p < s.hi {
      assert Inside(p, s) && CoveredAt(spans, p);
      UncoveredSpan(text, spans, s, p + 1);
    }
  }

  lemma {:induction false} UncoveredTail(text: string, spans: seq<Match>, p: nat)
    requires spans != [] && p <= |text| && spans[0].hi <= p
    ensures Uncovered(text, spans, p) == Uncovered(text, spans[1..], p)
    decreases |text| - p
  {
    if p < |text| {
      UncoveredTail(text, spans, p + 1);
      assert CoveredAt(spans, p) <==> CoveredAt(spans[1..], p) by {
        assert forall s :: s in spans <==> s == spans[0] || s in spans[1..];
      }
    }
  }

  /** Spans in order: all other characters are kept, in order, and nothing else is. */
  lemma {:induction false} KeptIsUncovered(text: string, spans: seq<Match>, cursor: nat)
    requires InText(text, spans) && cursor <= |text| && InOrder(spans, cursor)
    ensures Kept(text, spans, cursor) == Uncovered(text, spans, cursor)
  {
    if spans == [] {
      UncoveredGap(text, spans, cursor, |text|);
      assert text[cursor..|text|] == text[cursor..];
    } else {
      var s, rest := spans[0], spans[1..];
      KeptIsUncovered(text, rest, s.hi);
      InOrderStarts(spans, cursor);
      InOrderStarts(rest, s.hi);
      forall k | cursor <= k < s.lo
        ensures !CoveredAt(spans, k)
      {
        assert forall t :: t in spans ==> t == s || t in rest;
      }
      UncoveredGap(text, spans, cursor, s.lo);
      UncoveredSpan(text, spans, s, s.lo);
      UncoveredTail(text, spans, s.hi);
    }
  }

  // ---------- the rebuilt text, position by position ----------

  /** The replacement of the first span that starts at `p`, if one does. */
  function StartedAt(spans: seq<Match>, p: nat): string {
    if spans == [] then "" else if spans[0].lo == p then spans[0].replacement else StartedAt(spans[1..], p)
  }

  /**
   From each position on: the replacement of a span that starts there, and the character unless a span
   covers it.
   */
  ghost function ByPosition(text: string, spans: seq<Match>, p: nat): string
    requires p <= |text|
    decreases |text| - p
  {
    if p == |text| then ""
    else StartedAt(spans, p) + (if CoveredAt(spans, p) then "" else [text[p]]) + ByPosition(text, spans, p + 1)
  }

  lemma {:induction false} NoneStarted(spans: seq<Match>, p: nat)
    requires forall s :: s in spans ==> s.lo != p
    ensures StartedAt(spans, p) == ""
  {
    if spans != [] {
      assert spans[0] in spans;
      NoneStarted(spans[1..], p);
    }
  }

  lemma {:induction false} PositionCopied(text: string, spans: seq<Match>, p: nat)
    requires p < |text| && forall s :: s in spans ==> s.lo > p
    ensures ByPosition(text, spans, p) == [text[p]] + ByPosition(text, spans, p + 1)
  {
    NoneStarted(spans, p);
    assert !CoveredAt(spans, p);
    hide CoveredAt;
    assert "" + [text[p]] == [text[p]];
  }

  lemma OneThenRest(text: string, p: nat, q: nat, rest: string)
    requires p < q <= |text|
    ensures [text[p]] + (text[p + 1..q] + rest) == text[p..q] + rest
  {
    assert text[p..q] == [text[p]] + text[p + 1..q];
  }

  lemma {:induction false} PositionUnfold(text: string, spans: seq<Match>, p: nat)
    requires p < |text|
    ensures ByPosition(text, spans, p)
            == StartedAt(spans, p) + (if CoveredAt(spans, p) then "" else [text[p]]) + ByPosition(text, spans, p + 1)
  {
    hide StartedAt, CoveredAt;
  }

  lemma {:induction false} FirstStartedAt(spans: seq<Match>)
    requires spans != []
    ensures StartedAt(spans, spans[0].lo) == spans[0].replacement
  {
  }

  lemma NothingBetween(a: string, b: string)
    ensures a + "" + b == a + b
  {
    assert a + "" == a;
  }

  lemma {:induction false} FirstCovers(spans: seq<Match>)
    requires spans != [] && spans[0].lo < spans[0].hi
    ensures CoveredAt(spans, spans[0].lo)
  {
    assert spans[0] in spans && Inside(spans[0].lo, spans[0]);
  }

  lemma {:induction false} PositionStarts(text: string, spans: seq<Match>)
    requires spans != [] && spans[0].lo < spans[0].hi <= |text|
    ensures ByPosition(text, spans, spans[0].lo)
            == spans[0].replacement + ByPosition(text, spans, spans[0].lo + 1)
  {
    hide *;
    FirstStartedAt(spans);
    FirstCovers(spans);
    PositionUnfold(text, spans, spans[0].lo);
    NothingBetween(spans[0].replacement, ByPosition(text, spans, spans[0].lo + 1));
  }

  /** Positions with no span starting or covering are copied. */
  lemma {:induction false} PositionGap(text: string, spans: seq<Match>, p: nat, q: nat)
    requires p <= q <= |text| && forall s :: s in spans ==> s.lo >= q
    ensures ByPosition(text, spans, p) == text[p..q] + ByPosition(text, spans, q)
    decreases q - p
  {
    hide ByPosition;
    if p < q {
      PositionGap(text, spans, p + 1, q);
      PositionCopied(text, spans, p);
      OneThenRest(text, p, q, ByPosition(text, spans, q));
    } else {
      assert text[p..p] + ByPosition(text, spans, p) == ByPosition(text, spans, p);
    }
  }

  /** Behind its start a span adds nothing up to its end. */
  lemma {:induction false} PositionSpan(text: string, spans: seq<Match>, s: Match, p: nat)
    requires s in spans && s.lo < p <= s.hi <= |text|
    requires forall t :: t in spans ==> t == s || t.lo >= s.hi
    ensures ByPosition(text, spans, p) == ByPosition(text, spans, s.hi)
    decreases s.hi - p
  {
    if p < s.hi {
      assert Inside(p, s) && CoveredAt(spans, p);
      NoneStarted(spans, p);
      PositionSpan(text, spans, s, p + 1);
    }
  }

  /** Behind the first span it plays no part. */
  lemma {:induction false} PositionTail(text: string, spans: seq<Match>, p: nat)
    requires spans != [] && p <= |text| && spans[0].lo < spans[0].hi <= p
    ensures ByPosition(text, spans, p) == ByPosition(text, spans[1..], p)
    decreases |text| - p
  {
    if p < |text| {
      PositionTail(text, spans, p + 1);
      assert CoveredAt(spans, p) <==> CoveredAt(spans[1..], p) by {
        assert forall s :: s in spans <==> s == spans[0] || s in spans[1..];
      }
    }
  }

  /** For spans in order, none of them empty, the loop's text is the text position by position. */
  lemma {:induction false} RebuildIsByPosition(text: string, spans: seq<Match>, cursor: nat)
    requires InText(text, spans) && cursor <= |text| && InOrder(spans, cursor)
    requires forall s :: s in spans ==> s.lo < s.hi
    ensures Rebuild(text, spans, cursor) == ByPosition(text, spans, cursor)
  {
    if spans == [] {
      PositionGap(text, spans, cursor, |text|);
      assert text[cursor..|text|] == text[cursor..];
      assert text[cursor..] + "" == text[cursor..];
    } else {
      var s, rest := spans[0], spans[1..];
      assert s in spans && forall t :: t in rest ==> t in spans;
      RebuildIsByPosition(text, rest, s.hi);
      InOrderStarts(spans, cursor);
      InOrderStarts(rest, s.hi);
      FirstStarts(text, spans, cursor);
    }
  }

  lemma InBetween(a: string, b: string, c: string)
    ensures a + (b + c) == a + b + c
  {
  }

  lemma HeadOrTail(spans: seq<Match>)
    requires spans != []
    ensures spans[0] in spans && forall t :: t in spans <==> t == spans[0] || t in spans[1..]
  {
    assert spans == [spans[0]] + spans[1..];
  }

  lemma {:induction false} FirstStarts(text: string, spans: seq<Match>, cursor: nat)
    requires spans != [] && cursor <= spans[0].lo < spans[0].hi <= |text|
    requires forall t :: t in spans[1..] ==> t.lo >= spans[0].hi
    ensures ByPosition(text, spans, cursor)
            == text[cursor..spans[0].lo] + spans[0].replacement + ByPosition(text, spans[1..], spans[0].hi)
  {
    var s := spans[0];
    hide ByPosition;
    HeadOrTail(spans);
    PositionGap(text, spans, cursor, s.lo);
    PositionStarts(text, spans);
    PositionSpan(text, spans, s, s.lo + 1);
    PositionTail(text, spans, s.hi);
    InBetween(text[cursor..s.lo], s.replacement, ByPosition(text, spans[1..], s.hi));
  }

  function Removed(text: string, spans: seq<Match>): seq<string>
    requires InText(text, spans)
  {
    seq(|spans|, i requires 0 <= i < |spans| => text[spans[i].lo..spans[i].hi])
  }

  /** Putting the removed strings back where the recorded spans say. */
  function Restore(out: string, spans: seq<Match>, removed: seq<string>, cursor: nat): string
    requires |removed| == |spans|
  {
    if spans == [] then out
    else
      var s := spans[0];
      var gap := if cursor <= s.lo then s.lo - cursor else 0;
      var next := gap + |s.replacement|;
      if next > |out| then out
      else out[..gap] + removed[0] + Restore(out[next..], spans[1..], removed[1..], s.hi)
  }

  /** The original is recoverable from the output, the spans and what was removed. */
  lemma {:induction false} RestoreUndoes(text: string, spans: seq<Match>, cursor: nat)
    requires InText(text, spans) && cursor <= |text| && InOrder(spans, cursor)
    ensures Restore(Rebuild(text, spans, cursor), spans, Removed(text, spans), cursor) == text[cursor..]
  {
    if spans != [] {
      var s, rest := spans[0], spans[1..];
      RestoreUndoes(text, rest, s.hi);
      var tail := Rebuild(text, rest, s.hi);
      var out := Rebuild(text, spans, cursor);
      assert out == text[cursor..s.lo] + s.replacement + tail;
      var removed := Removed(text, spans);
      assert removed[0] == text[s.lo..s.hi] && removed[1..] == Removed(text, rest);
      RestoreStep(out, spans, removed, cursor, text[cursor..s.lo], tail);
      hide Restore, Rebuild, Removed, InOrder;
      CutThrice(text, cursor, s.lo, s.hi);
    }
  }

  lemma CutThrice(text: string, a: nat, b: nat, c: nat)
    requires a <= b <= c <= |text|
    ensures text[a..] == text[a..b] + text[b..c] + text[c..]
  {
  }

  lemma RestoreStep(out: string, spans: seq<Match>, removed: seq<string>, cursor: nat, head: string, tail: string)
    requires |removed| == |spans| > 0 && cursor <= spans[0].lo && |head| == spans[0].lo - cursor
    requires out == head + spans[0].replacement + tail
    ensures Restore(out, spans, removed, cursor)
            == head + removed[0] + Restore(tail, spans[1..], removed[1..], spans[0].hi)
  {
    var gap := |head|;
    assert out[..gap] == head && out[gap + |spans[0].replacement|..] == tail;
  }

  // ---------- when the chosen spans are in order ----------

  /** Earlier start, or the same start and no shorter. */
  predicate StartsFirst(a: Match, b: Match) {
    a.lo < b.lo || (a.lo == b.lo && Length(a) >= Length(b))
  }

  ghost predicate StartSorted(s: seq<Match>) {
    forall i, j :: 0 <= i < j < |s| ==> StartsFirst(s[i], s[j])
  }

  /** A span that is empty and starts where a longer chosen one does. */
  ghost predicate EmptyAtStart(s: seq<Match>) {
    exists a, b :: a in s && b in s && a.lo == b.lo && a.lo < a.hi && b.lo == b.hi
  }

  lemma {:induction false} InsertByStartShape(s: seq<Match>, m: Match)
    requires StartSorted(s) && forall c :: c in s ==> Length(c) >= Length(m)
    ensures StartSorted(InsertByStart(s, m))
  {
    var n := |s| - 1;
    if s == [] || s[n].lo <= m.lo {
      forall i | 0 <= i < |s|
        ensures StartsFirst(s[i], m)
      {
        assert s[i] in s;
        assert i == n || StartsFirst(s[i], s[n]);
      }
    } else {
      var t := InsertByStart(s[..n], m);
      assert forall c :: c in s[..n] ==> c in s;
      InsertByStartShape(s[..n], m);
      InsertByStartAdds(s[..n], m);
      assert InsertByStart(s, m) == t + [s[n]];
      hide InsertByStart;
      forall i | 0 <= i < |t|
        ensures StartsFirst(t[i], s[n])
      {
        assert t[i] in multiset(t);
        if t[i] != m {
          assert t[i] in s[..n];
          var k :| 0 <= k < n && s[..n][k] == t[i];
          assert StartsFirst(s[k], s[n]);
        }
      }
    }
  }

  lemma {:induction false} ByStartShape(ms: seq<Match>)
    requires LongestFirst(ms)
    ensures StartSorted(ByStart(ms))
  {
    if ms != [] {
      ByStartStep(ms);
      EarlierAreLonger(ms);
      LongestFirstInit(ms);
      hide ByStart, LongestFirst, InsertByStart, StartSorted;
      ByStartShape(ms[..|ms| - 1]);
      InsertByStartShape(ByStart(ms[..|ms| - 1]), ms[|ms| - 1]);
    }
  }

  lemma ByStartStep(ms: seq<Match>)
    requires ms != []
    ensures ByStart(ms) == InsertByStart(ByStart(ms[..|ms| - 1]), ms[|ms| - 1])
  {
  }

  lemma LongestFirstInit(ms: seq<Match>)
    requires LongestFirst(ms) && ms != []
    ensures LongestFirst(ms[..|ms| - 1])
  {
  }

  /** In a list sorted by length no earlier match is shorter than the last, in whatever order they are. */
  lemma EarlierAreLonger(ms: seq<Match>)
    requires LongestFirst(ms) && ms != []
    ensures forall c :: c in ByStart(ms[..|ms| - 1]) ==> Length(c) >= Length(ms[|ms| - 1])
  {
    var n := |ms| - 1;
    ByStartKeeps(ms[..n]);
    SameElements(ms[..n], ByStart(ms[..n]));
    hide ByStart;
    forall c | c in ByStart(ms[..n])
      ensures Length(c) >= Length(ms[n])
    {
      assert c in ms[..n];
      var k :| 0 <= k < n && ms[..n][k] == c;
      assert Length(ms[k]) >= Length(ms[n]);
    }
  }

  lemma {:induction false} GreedyLongestFirst(ranked: seq<Match>)
    requires LongestFirst(ranked)
    ensures LongestFirst(Greedy(ranked))
  {
    if ranked != [] {
      var n := |ranked| - 1;
      var chosen := Greedy(ranked[..n]);
      GreedyLongestFirst(ranked[..n]);
      GreedyTakesFromList(ranked[..n]);
      forall i | 0 <= i < |chosen|
        ensures Length(chosen[i]) >= Length(ranked[n])
      {
        assert chosen[i] in ranked[..n];
        var k :| 0 <= k < n && ranked[..n][k] == chosen[i];
        assert Length(ranked[k]) >= Length(ranked[n]);
      }
    }
  }

  /** Disjoint spans sorted by start are in order exactly when no empty one shares its start with a longer one. */
  lemma {:induction false} OrderedExactlyWhen(spans: seq<Match>, cursor: nat)
    requires Disjoint(spans) && StartSorted(spans)
    requires forall i :: 0 <= i < |spans| ==> cursor <= spans[i].lo <= spans[i].hi
    ensures InOrder(spans, cursor) <==> !EmptyAtStart(spans)
  {
    if spans != [] {
      var s, rest := spans[0], spans[1..];
      if i :| 0 < i < |spans| && spans[i].lo < s.hi {
        assert !Overlap(s, spans[i]) && StartsFirst(s, spans[i]);
        assert spans[i] in spans && s in spans && EmptyAtStart(spans);
        assert rest[i - 1] == spans[i] && rest[i - 1] in rest;
        if InOrder(spans, cursor) { InOrderStarts(rest, s.hi); }
      } else {
        OrderedExactlyWhen(rest, s.hi);
        EmptyAtStartOfRest(spans);
      }
    }
  }

  lemma EmptyAtStartOfRest(spans: seq<Match>)
    requires spans != [] && forall i :: 0 < i < |spans| ==> spans[0].hi <= spans[i].lo
    requires StartSorted(spans) && spans[0].lo <= spans[0].hi
    ensures EmptyAtStart(spans) <==> EmptyAtStart(spans[1..])
  {
    var s, rest := spans[0], spans[1..];
    assert forall m :: m in rest ==> m in spans;
    forall m | m in spans
      ensures m == s || (m in rest && s.hi <= m.lo && (m.lo == s.lo ==> Length(m) <= Length(s)))
    {
      if m != s {
        var i :| 0 < i < |spans| && spans[i] == m;
        assert rest[i - 1] == m && StartsFirst(s, spans[i]);
      }
    }
    if EmptyAtStart(spans) {
      var a, b :| a in spans && b in spans && a.lo == b.lo && a.lo < a.hi && b.lo == b.hi;
      assert a in rest && b in rest;
    }
  }

  // ---------- when the rebuilt text keeps no more than it should ----------

  lemma {:induction false} UncoveredShrinks(text: string, spans: seq<Match>, p: nat, q: nat)
    requires p <= q <= |text|
    ensures |Uncovered(text, spans, q)| <= |Uncovered(text, spans, p)| <= q - p + |Uncovered(text, spans, q)|
    decreases q - p
  {
    hide CoveredAt;
    if p < q { UncoveredShrinks(text, spans, p + 1, q); }
  }

  lemma {:induction false} UncoveredStep(text: string, spans: seq<Match>, p: nat)
    requires p < |text|
    ensures |Uncovered(text, spans, p)|
            == |Uncovered(text, spans, p + 1)| + if CoveredAt(spans, p) then 0 else 1
  {
    hide CoveredAt;
  }

  lemma CoveredByMore(some: seq<Match>, all: seq<Match>, p: nat)
    requires forall m :: m in some ==> m in all
    ensures CoveredAt(some, p) ==> CoveredAt(all, p)
  {
  }

  lemma {:induction false} UncoveredByFewer(text: string, some: seq<Match>, all: seq<Match>, p: nat)
    requires p <= |text| && forall m :: m in some ==> m in all
    ensures |Uncovered(text, some, p)| >= |Uncovered(text, all, p)|
    decreases |text| - p
  {
    if p < |text| {
      CoveredByMore(some, all, p);
      UncoveredStep(text, some, p);
      UncoveredStep(text, all, p);
      hide CoveredAt, Uncovered;
      UncoveredByFewer(text, some, all, p + 1);
    }
  }

  /** One span on: what is uncovered from the cursor is at most the gap and what is uncovered behind it. */
  lemma UncoveredPast(text: string, all: seq<Match>, s: Match, cursor: nat)
    requires s in all && s.lo <= s.hi <= |text| && cursor <= |text|
    ensures |Uncovered(text, all, cursor)| <= |Slice(text, cursor, s.lo)| + |Uncovered(text, all, s.hi)|
  {
    if cursor <= s.lo {
      UncoveredShrinks(text, all, cursor, s.lo);
      UncoveredSpan(text, all, s, s.lo);
    } else if cursor <= s.hi {
      UncoveredSpan(text, all, s, cursor);
    } else {
      UncoveredShrinks(text, all, s.hi, cursor);
    }
  }

  /** Whatever order the spans come in, every uncovered character is kept at least once. */
  lemma {:induction false} KeepsAllUncovered(text: string, spans: seq<Match>, all: seq<Match>, cursor: nat)
    requires InText(text, spans) && cursor <= |text| && forall m :: m in spans ==> m in all
    ensures |Kept(text, spans, cursor)| >= |Uncovered(text, all, cursor)|
  {
    if spans == [] {
      UncoveredShrinks(text, all, cursor, |text|);
    } else {
      KeepsAllUncovered(text, spans[1..], all, spans[0].hi);
      UncoveredPast(text, all, spans[0], cursor);
    }
  }

  /** Some span is followed by an empty one at its own start. */
  ghost predicate StepsBackAt(spans: seq<Match>, i: nat) {
    i + 1 < |spans| && spans[i + 1].lo == spans[i + 1].hi == spans[i].lo < spans[i].hi
  }

  lemma {:induction false} StepsBack(spans: seq<Match>) returns (i: nat)
    requires Disjoint(spans) && StartSorted(spans) && EmptyAtStart(spans)
    requires forall k :: 0 <= k < |spans| ==> spans[k].lo <= spans[k].hi
    ensures StepsBackAt(spans, i)
  {
    var a, b :| a in spans && b in spans && a.lo == b.lo && a.lo < a.hi && b.lo == b.hi;
    i :| 0 <= i < |spans| && spans[i] == a;
    var j :| 0 <= j < |spans| && spans[j] == b;
    assert i < j;
    assert StartsFirst(spans[i], spans[i + 1]) && !Overlap(spans[i], spans[i + 1]);
    assert i + 1 == j || StartsFirst(spans[i + 1], spans[j]);
  }

  /** There the cursor goes back over the span just replaced, and its text is kept. */
  lemma {:induction false} KeepsMore(text: string, spans: seq<Match>, all: seq<Match>, cursor: nat, i: nat)
    requires InText(text, spans) && cursor <= |text| && forall m :: m in spans ==> m in all
    requires Disjoint(spans) && StepsBackAt(spans, i)
    ensures |Kept(text, spans, cursor)| > |Uncovered(text, all, cursor)|
  {
    var s, rest := spans[0], spans[1..];
    UncoveredPast(text, all, s, cursor);
    if i > 0 {
      KeepsMore(text, rest, all, s.hi, i - 1);
    } else {
      var behind := rest[1..];
      assert Kept(text, rest, s.hi) == Kept(text, behind, s.lo);
      KeepsAllUncovered(text, behind, behind, s.lo);
      forall k | s.lo <= k < s.hi
        ensures !CoveredAt(behind, k)
      {
        forall m | m in behind
          ensures !Inside(k, m)
        {
          var j :| 0 <= j < |behind| && behind[j] == m;
          assert !Overlap(spans[0], spans[j + 2]);
        }
      }
      UncoveredGap(text, behind, s.lo, s.hi);
      UncoveredByFewer(text, behind, all, s.hi);
    }
  }

  /** An empty match where a chosen one begins. */
  ghost predicate EmptyAtChosen(ms: seq<Match>) {
    exists e, m :: e in ms && m in Chosen(ms) && e.lo == e.hi == m.lo < m.hi
  }

  /** No such match is passed over: it could overlap only a span around it, which would overlap the other too. */
  lemma EmptyIsChosen(ms: seq<Match>)
    ensures EmptyAtChosen(ms) <==> EmptyAtStart(Chosen(ms))
  {
    ChosenSpans(ms);
    var spans := Chosen(ms);
    hide Chosen;
    if EmptyAtStart(spans) {
      var a, b :| a in spans && b in spans && a.lo == b.lo && a.lo < a.hi && b.lo == b.hi;
      assert b in ms;
    } else if EmptyAtChosen(ms) {
      var e, m :| e in ms && m in spans && e.lo == e.hi == m.lo < m.hi;
      if e !in spans {
        var c :| c in spans && Overlap(e, c);
        DisjointElements(spans, m, c);
      }
    }
  }

  /**
   The rebuilt text keeps exactly what no chosen span covers if and only if no empty match starts where
   a non-empty chosen one does; otherwise it is longer by text that had been redacted.
   */
  lemma CleanExactlyWhen(text: string, ms: seq<Match>)
    requires InText(text, ms)
    ensures InText(text, Chosen(ms))
    ensures Kept(text, Chosen(ms), 0) == Uncovered(text, Chosen(ms), 0) <==> !EmptyAtChosen(ms)
    ensures EmptyAtChosen(ms) ==> |Kept(text, Chosen(ms), 0)| > |Uncovered(text, Chosen(ms), 0)|
    ensures InOrder(Chosen(ms), 0) <==> !EmptyAtChosen(ms)
    ensures (forall m :: m in ms ==> m.lo < m.hi) ==> !EmptyAtChosen(ms)
  {
    var ranked := ByRank(ms);
    ByRankIsLongestFirst(ms);
    GreedyLongestFirst(ranked);
    ByStartShape(Greedy(ranked));
    ChosenSpans(ms);
    ChosenInText(text, ms);
    EmptyIsChosen(ms);
    var spans := Chosen(ms);
    hide ByRank, ByStart, Greedy, Chosen;
    OrderedExactlyWhen(spans, 0);
    if InOrder(spans, 0) {
      KeptIsUncovered(text, spans, 0);
    } else {
      var i := StepsBack(spans);
      KeepsMore(text, spans, spans, 0, i);
    }
  }

  /** Without empty matches the rebuilt text is, position by position, what the chosen spans make of it. */
  lemma RebuiltByPosition(text: string, ms: seq<Match>)
    requires InText(text, ms) && forall m :: m in ms ==> m.lo < m.hi
    ensures InText(text, Chosen(ms)) && Rebuild(text, Chosen(ms), 0) == ByPosition(text, Chosen(ms), 0)
  {
    CleanExactlyWhen(text, ms);
    ChosenElements(ms);
    hide Chosen, ByRank, Greedy;
    RebuildIsByPosition(text, Chosen(ms), 0);
  }

  /** With an empty match there the replaced text comes back: the cursor returns to its start. */
  lemma EmptyMatchRepeatsText(text: string, a: Match, b: Match)
    requires a.lo == 0 < a.hi == |text| && b.lo == b.hi == 0
    ensures Chosen([a, b]) == [a, b] && InText(text, [a, b])
    ensures Rebuild(text, [a, b], 0) == a.replacement + (b.replacement + text)
  {
    ChosenPair(a, b);
    hide Chosen;
    RebuildOne(text, a, [b], 0);
    RebuildOne(text, b, [], |text|);
    assert [b] == [b] + [] && [a, b] == [a] + [b];
  }

  lemma RebuildOne(text: string, s: Match, rest: seq<Match>, cursor: nat)
    requires InText(text, rest) && s.lo <= cursor <= |text| && s.lo <= s.hi <= |text|
    ensures InText(text, [s] + rest)
    ensures Rebuild(text, [s] + rest, cursor) == s.replacement + Rebuild(text, rest, s.hi)
  {
    var spans := [s] + rest;
    assert spans[1..] == rest;
    assert Slice(text, cursor, s.lo) == [];
    assert Slice(text, cursor, s.lo) + s.replacement == s.replacement;
  }

  lemma ChosenPair(a: Match, b: Match)
    requires Length(a) > Length(b) && !Overlap(b, a) && a.lo == b.lo
    ensures Chosen([a, b]) == [a, b]
  {
    var ms := [a, b];
    hide StrLess;
    assert ms[..1] == [a] && [a][..0] == [];
    assert ByRank([a]) == [a];
    assert ByRank(ms) == ms;
    assert Greedy([a]) == [a];
    assert Greedy(ms) == ms;
    assert ByStart([a]) == [a];
    assert ByStart(ms) == ms;
  }
}
