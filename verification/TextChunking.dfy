/** Sliding windows over a text, and the calls made when windows are re-split on overflow. */
module TextChunking {
  import opened Prelude
  import opened Words

  const MIN_CHUNK_TOKENS: nat := 200
  const LOOKAHEAD_WORDS: nat := 20

  predicate EndsSentence(w: string) {
    w != "" && w[|w| - 1] in {'.', '!', '?'}
  }

  /**
   * Words up to the first one that ends a sentence with another word behind it: where
   * the sentence-end pattern, which needs whitespace after the mark, first matches
   * the lookahead text; 0 if nowhere.
   */
  function SnapFrom(ahead: seq<string>, i: nat): (extra: nat)
    requires i <= |ahead|
    ensures extra == 0 || i < extra < |ahead|
    ensures extra > 0 ==> EndsSentence(ahead[extra - 1])
    ensures forall j :: i <= j < (if extra > 0 then extra else |ahead|) - 1 ==> !EndsSentence(ahead[j])
    decreases |ahead| - i
  {
    if i + 1 >= |ahead| then 0
    else if EndsSentence(ahead[i]) then i + 1
    else SnapFrom(ahead, i + 1)
  }

  datatype Window = Window(lo: nat, hi: nat)

  /** The window that starts at word `start`. */
  function WindowAt(ws: seq<string>, chunk: nat, start: nat): Window
    requires start <= |ws|
  {
    var end := Min(start + chunk, |ws|);
    if end < |ws| then Window(start, end + SnapFrom(ws[end..Min(end + LOOKAHEAD_WORDS, |ws|)], 0))
    else Window(start, end)
  }

  /**
   A window holds at least one word, at most the chunk and the lookahead, and stops short of the end
   only if the chunk does.
   */
  predicate Proper(ws: seq<string>, chunk: nat, w: Window) {
    && w.lo < w.hi <= |ws|
    && Min(w.lo + chunk, |ws|) <= w.hi <= w.lo + chunk + LOOKAHEAD_WORDS - 1
    && (w.hi < |ws| <==> w.lo + chunk < |ws|)
    && (w.hi > w.lo + chunk ==> EndsSentence(ws[w.hi - 1]))
  }

  lemma WindowAtIsProper(ws: seq<string>, chunk: nat, start: nat)
    requires start < |ws| && chunk > 0
    ensures Proper(ws, chunk, WindowAt(ws, chunk, start)) && WindowAt(ws, chunk, start).lo == start
  {
  }

  /** The word ends a sentence: its last character is a full stop, an exclamation mark or a question mark. */
  predicate Stops(w: string) {
    |w| > 0 && (w[|w| - 1] == '.' || w[|w| - 1] == '!' || w[|w| - 1] == '?')
  }

  /**
   Where a window must end, over the words alone: behind the first word that ends a sentence among the
   twenty behind the chunk, if one has a further word of those behind it; otherwise with the chunk.
   */
  ghost predicate EndsRight(ws: seq<string>, chunk: nat, w: Window) {
    var plain, limit := Min(w.lo + chunk, |ws|), Min(w.lo + chunk + 20, |ws|);
    if exists k :: plain <= k < limit - 1 && Stops(ws[k])
    then plain < w.hi < limit && Stops(ws[w.hi - 1]) && forall k :: plain <= k < w.hi - 1 ==> !Stops(ws[k])
    else w.hi == plain
  }

  lemma WindowAtEndsRight(ws: seq<string>, chunk: nat, start: nat)
    requires start <= |ws|
    ensures EndsRight(ws, chunk, WindowAt(ws, chunk, start))
  {
    var end := Min(start + chunk, |ws|);
    if end < |ws| {
      var limit := Min(end + 20, |ws|);
      var ahead := ws[end..limit];
      var extra := SnapFrom(ahead, 0);
      assert forall j :: 0 <= j < |ahead| ==> ahead[j] == ws[end + j];
      assert forall w :: Stops(w) <==> EndsSentence(w);
      hide SnapFrom;
      forall k | end <= k < (if extra > 0 then end + extra else limit) - 1
        ensures !Stops(ws[k])
      {
        assert ahead[k - end] == ws[k];
      }
    }
  }

  /** Where window `i` starts: `step` words after the one before it. */
  function StartOf(i: nat, step: nat): nat {
    if i == 0 then 0 else StartOf(i - 1, step) + step
  }

  /** Windows placed every `step` words from the start of the text, all but the last short of its end. */
  ghost predicate Placed(ws: seq<string>, chunk: nat, step: nat, s: seq<Window>) {
    forall i :: 0 <= i < |s| ==>
      && s[i].lo == StartOf(i, step) < |ws| && s[i] == WindowAt(ws, chunk, s[i].lo)
      && (i < |s| - 1 ==> s[i].hi < |ws|)
  }

  /** The windows `split_text` cuts: the last one reaches the end, or the next would start past it. */
  ghost predicate Cut(ws: seq<string>, chunk: nat, step: nat, s: seq<Window>) {
    Placed(ws, chunk, step, s) && s != [] && (s[|s| - 1].hi >= |ws| || StartOf(|s|, step) >= |ws|)
  }

  lemma PlacedGrows(ws: seq<string>, chunk: nat, step: nat, s: seq<Window>, start: nat)
    requires Placed(ws, chunk, step, s) && (s != [] ==> s[|s| - 1].hi < |ws|)
    requires start == StartOf(|s|, step) < |ws| && chunk > 0
    ensures Placed(ws, chunk, step, s + [WindowAt(ws, chunk, start)])
  {
    WindowAtIsProper(ws, chunk, start);
    hide WindowAt;
  }

  /** With a step no longer than the chunk the windows leave no word out. */
  lemma CutCovers(ws: seq<string>, chunk: nat, step: nat, s: seq<Window>)
    requires 0 < step <= chunk && ws != [] && Cut(ws, chunk, step, s)
    ensures s[0].lo == 0 && s[|s| - 1].hi == |ws|
    ensures forall i :: 0 <= i < |s| ==> Proper(ws, chunk, s[i])
    ensures forall i, j :: 0 <= i < j < |s| && j == i + 1 ==> s[j].lo == s[i].lo + step && s[j].lo <= s[i].hi
  {
    forall i | 0 <= i < |s|
      ensures Proper(ws, chunk, s[i])
    {
      WindowAtIsProper(ws, chunk, s[i].lo);
    }
    hide WindowAt;
    forall i, j | 0 <= i < j < |s| && j == i + 1
      ensures s[j].lo == s[i].lo + step && s[j].lo <= s[i].hi
    {
      assert Proper(ws, chunk, s[i]);
    }
    var z := |s| - 1;
    assert Proper(ws, chunk, s[z]);
  }

  function JoinWindow(ws: seq<string>, w: Window): string
    requires w.lo <= w.hi <= |ws|
  {
    Join(ws[w.lo..w.hi])
  }

  /** Piece `i` is the words of window `i`, joined by single spaces. */
  ghost predicate Renders(ws: seq<string>, windows: seq<Window>, chunks: seq<string>) {
    && |chunks| == |windows|
    && forall i :: 0 <= i < |windows| ==>
        windows[i].lo <= windows[i].hi <= |ws| && chunks[i] == JoinWindow(ws, windows[i])
  }

  /** The loop's state: windows so far, all short of the end, and their texts. */
  ghost predicate Cutting(ws: seq<string>, chunk: nat, step: nat, windows: seq<Window>, chunks: seq<string>) {
    Placed(ws, chunk, step, windows) && Renders(ws, windows, chunks)
  }

  lemma CuttingGrows(ws: seq<string>, chunk: nat, step: nat, windows: seq<Window>, chunks: seq<string>, start: nat)
    requires Cutting(ws, chunk, step, windows, chunks) && (windows != [] ==> windows[|windows| - 1].hi < |ws|)
    requires start == StartOf(|windows|, step) < |ws| && chunk > 0
    ensures var w := WindowAt(ws, chunk, start);
      Proper(ws, chunk, w) && w.lo == start
      && Cutting(ws, chunk, step, windows + [w], chunks + [JoinWindow(ws, w)])
  {
    WindowAtIsProper(ws, chunk, start);
    PlacedGrows(ws, chunk, step, windows, start);
    hide WindowAt, Placed, Join;
  }

  lemma NothingCut(ws: seq<string>, chunk: nat, step: nat)
    ensures Cutting(ws, chunk, step, [], []) && StartOf(0, step) == 0
  {
  }

  lemma ReachedEnd(ws: seq<string>, chunk: nat, step: nat, windows: seq<Window>, chunks: seq<string>)
    requires Cutting(ws, chunk, step, windows, chunks) && windows != [] && windows[|windows| - 1].hi >= |ws|
    ensures Cut(ws, chunk, step, windows) && Renders(ws, windows, chunks)
  {
  }

  lemma PassedEnd(ws: seq<string>, chunk: nat, step: nat, windows: seq<Window>, chunks: seq<string>)
    requires Cutting(ws, chunk, step, windows, chunks) && StartOf(|windows|, step) >= |ws| > 0
    ensures Cut(ws, chunk, step, windows) && Renders(ws, windows, chunks) && chunks != []
  {
    hide Placed;
  }

  lemma StartSteps(i: nat, step: nat)
    ensures StartOf(i + 1, step) == StartOf(i, step) + step
  {
  }

  lemma JoinedIsNotBlank(ws: seq<string>, w: Window)
    requires AllWords(ws) && w.lo < w.hi <= |ws|
    ensures Split(JoinWindow(ws, w)) == ws[w.lo..w.hi] != []
  {
    SplitOfJoin(ws[w.lo..w.hi]);
    hide Split, Join;
  }

  /**
   The pieces over the words alone: the first begins with the text, each further one `step` words behind
   the one before, each ends where it must and holds just its words, and only the last may end the text.
   */
  ghost predicate Sliced(ws: seq<string>, chunk: nat, step: nat, windows: seq<Window>, chunks: seq<string>) {
    && |chunks| == |windows| > 0 && windows[0].lo == 0
    && (forall i, j :: 0 <= i < j < |windows| && j == i + 1 ==>
          windows[j].lo == windows[i].lo + step && windows[i].hi < |ws|)
    && (forall i :: 0 <= i < |windows| ==>
          && EndsRight(ws, chunk, windows[i]) && windows[i].lo < windows[i].hi <= |ws|
          && Split(chunks[i]) == ws[windows[i].lo..windows[i].hi])
    && var last := windows[|windows| - 1];
       last.hi == |ws| || last.lo + step >= |ws|
  }

  lemma CutIsSliced(ws: seq<string>, chunk: nat, step: nat, windows: seq<Window>, chunks: seq<string>)
    requires Cut(ws, chunk, step, windows) && Renders(ws, windows, chunks) && AllWords(ws) && chunk > 0
    ensures Sliced(ws, chunk, step, windows, chunks)
  {
    hide WindowAt, EndsRight, Split, Join, AllWords;
    forall i | 0 <= i < |windows|
      ensures EndsRight(ws, chunk, windows[i]) && windows[i].lo < windows[i].hi <= |ws|
      ensures Split(chunks[i]) == ws[windows[i].lo..windows[i].hi]
    {
      WindowAtEndsRight(ws, chunk, windows[i].lo);
      WindowAtIsProper(ws, chunk, windows[i].lo);
      JoinedIsNotBlank(ws, windows[i]);
    }
    assert StartOf(0, step) == 0;
    LastStart(step, |windows|);
  }

  lemma LastStart(step: nat, n: nat)
    requires n > 0
    ensures StartOf(n, step) == StartOf(n - 1, step) + step
  {
  }

  lemma StepLiteral(chunk: nat, overlap: int)
    ensures Max(chunk - overlap, 1) == if overlap < chunk then chunk - overlap else 1
  {
  }

  /**
   * `split_text`; `tokens` counts the tokens of a text. `windows` says which words
   * each piece holds, and is empty when the text is returned whole.
   */
  method SplitText(text: string, chunk: nat, overlap: int, tokens: string -> nat)
    returns (chunks: seq<string>, ghost windows: seq<Window>)
    requires chunk > 0
    ensures chunks != []
    ensures Split(text) == [] || tokens(text) <= chunk ==> chunks == [text]
    ensures Split(text) == [] || tokens(text) <= chunk ==> windows == []
    ensures Split(text) != [] && tokens(text) > chunk ==>
      && Cut(Split(text), chunk, Max(chunk - overlap, 1), windows) && Renders(Split(text), windows, chunks)
      && Sliced(Split(text), chunk, if overlap < chunk then chunk - overlap else 1, windows, chunks)
  {
    var words := Split(text);
    windows := [];
    if words == [] { return [text], []; }
    if tokens(text) <= chunk { return [text], []; }
    SplitGivesWords(text);
    var step := Max(chunk - overlap, 1);
    chunks := [];
    var start, n := 0, |words|;
    hide *;
    NothingCut(words, chunk, step);
    while start < n
      invariant start == StartOf(|windows|, step)
      invariant Cutting(words, chunk, step, windows, chunks)
      invariant windows != [] ==> windows[|windows| - 1].hi < n
      decreases n - start
    {
      var end, chunkText := NextChunk(words, chunk, start);
      CuttingGrows(words, chunk, step, windows, chunks, start);
      if Split(chunkText) != [] {
        chunks := chunks + [chunkText];
      }
      windows := windows + [Window(start, end)];
      if end >= n {
        ReachedEnd(words, chunk, step, windows, chunks);
        CutIsSliced(words, chunk, step, windows, chunks);
        StepLiteral(chunk, overlap);
        return;
      }
      StartSteps(|windows| - 1, step);
      start := start + step;
    }
    PassedEnd(words, chunk, step, windows, chunks);
    CutIsSliced(words, chunk, step, windows, chunks);
    StepLiteral(chunk, overlap);
    if chunks == [] { chunks := [text]; }
  }

  /** One turn of the loop: the chunk's words, and if the text goes on, those up to the next sentence end. */
  method NextChunk(words: seq<string>, chunk: nat, start: nat) returns (end: nat, chunkText: string)
    requires AllWords(words) && start < |words| && chunk > 0
    ensures Window(start, end) == WindowAt(words, chunk, start) && start < end <= |words|
    ensures chunkText == JoinWindow(words, Window(start, end)) && Split(chunkText) != []
  {
    var n := |words|;
    end := Min(start + chunk, n);
    if end < n {
      end := end + SnapFrom(words[end..Min(end + LOOKAHEAD_WORDS, n)], 0);
    }
    assert Window(start, end) == WindowAt(words, chunk, start);
    WindowAtIsProper(words, chunk, start);
    hide WindowAt, SnapFrom;
    chunkText := Join(words[start..end]);
    JoinedIsNotBlank(words, Window(start, end));
  }

  // ---------- calling the model on the pieces ----------

  datatype Reply = Ok(data: string) | ContextOverflow | Failed
  datatype Call = Call(text: string, reply: Reply)

  /** The provider chain: it answers each call, and remembers what it was called on. */
  class Chain {
    /** The answer to a text, which may depend on everything asked before. */
    const answer: (seq<Call>, string) -> Reply
    var calls: seq<Call>

    constructor (answer: (seq<Call>, string) -> Reply)
      ensures this.answer == answer && calls == []
    {
      this.answer := answer;
      calls := [];
    }

    method NativeOp(text: string) returns (call: Call)
      modifies this
      ensures call == Call(text, answer(old(calls), text))
      ensures calls == old(calls) + [call]
    {
      call := Call(text, answer(calls, text));
      calls := calls + [call];
    }
  }

  /** `_effective_overlap_tokens`: at most a quarter of the chunk, never negative. */
  function EffectiveOverlap(chunk: nat, overlap: int): (r: nat)
    ensures 4 * r <= chunk && (r > 0 ==> r <= overlap)
    ensures r >= overlap || 4 * (r + 1) > chunk
  {
    Max(Min(overlap, chunk / 4), 0)
  }

  function StepOf(chunk: nat, overlap: int): (r: nat)
    requires chunk >= MIN_CHUNK_TOKENS
    ensures 4 * r >= 3 * chunk && r + EffectiveOverlap(chunk, overlap) == chunk
  {
    Max(chunk - EffectiveOverlap(chunk, overlap), 1)
  }

  function Halved(chunk: nat): (r: nat)
    ensures r >= MIN_CHUNK_TOKENS && (chunk > MIN_CHUNK_TOKENS ==> r < chunk)
    ensures (r > 200 ==> 2 * r <= chunk) && 2 * r >= chunk - 1
  {
    Max(chunk / 2, MIN_CHUNK_TOKENS)
  }

  /** How often `chunk` can be halved before it reaches the floor. */
  function Depth(chunk: nat): nat
    decreases chunk
  {
    if chunk <= MIN_CHUNK_TOKENS then 0 else 1 + Depth(Halved(chunk))
  }

  /** Calls a single piece can cost when it may be re-split `depth` more times. */
  function PieceCalls(depth: nat): nat {
    if depth == 0 then 1 else 1 + 3 * PieceCalls(depth - 1)
  }

  ghost function Power(b: nat, n: nat): nat {
    if n == 0 then 1 else b * Power(b, n - 1)
  }

  /** Both in closed form: how far a chunk is from the floor, and the calls of a piece that always overflows. */
  lemma {:induction false} CallsInFigures(chunk: nat)
    ensures var d := Depth(chunk);
      && chunk < 201 * Power(2, d) && (d > 0 ==> chunk >= 201 * Power(2, d - 1))
      && 2 * PieceCalls(d) + 1 == Power(3, d + 1)
    decreases chunk
  {
    var d := Depth(chunk);
    CallsOfPiece(d);
    if chunk > 200 {
      CallsInFigures(Halved(chunk));
      assert Depth(chunk) == 1 + Depth(Halved(chunk));
      assert Power(2, d) == 2 * Power(2, d - 1);
      if d > 1 { assert Power(2, d - 1) == 2 * Power(2, d - 2); }
    }
  }

  lemma {:induction false} CallsOfPiece(d: nat)
    ensures 2 * PieceCalls(d) + 1 == Power(3, d + 1)
  {
    if d > 0 { CallsOfPiece(d - 1); }
  }

  /** Windows needed for `n` words, ignoring sentence ends. */
  function WindowCount(n: nat, chunk: nat, step: nat): nat
    requires step > 0
  {
    if n <= chunk then 1 else 2 + (n - chunk - 1) / step
  }

  function CallBound(n: nat, chunk: nat, overlap: int): nat
    requires chunk >= MIN_CHUNK_TOKENS
  {
    WindowCount(n, chunk, StepOf(chunk, overlap)) * PieceCalls(Depth(chunk))
  }

  /** A cut never has more windows than that. */
  lemma CutCount(ws: seq<string>, chunk: nat, step: nat, s: seq<Window>)
    requires 0 < step <= chunk && Cut(ws, chunk, step, s)
    ensures |s| <= WindowCount(|ws|, chunk, step)
  {
    if |s| > 1 {
      var z := |s| - 2;
      assert s[z].hi < |ws| && s[z] == WindowAt(ws, chunk, s[z].lo);
      WindowAtIsProper(ws, chunk, s[z].lo);
      StartIsProduct(z, step);
      hide WindowAt, Cut;
      DivLower(|ws| - chunk - 1, step, z);
    }
  }

  lemma {:induction false} StartIsProduct(i: nat, step: nat)
    ensures StartOf(i, step) == i * step
  {
    if i > 0 { StartIsProduct(i - 1, step); }
  }

  lemma MulMonotone(x: nat, y: nat, step: nat)
    ensures x <= y ==> x * step <= y * step
  {
  }

  lemma DivLower(a: nat, step: nat, k: nat)
    requires step > 0 && k * step <= a
    ensures k <= a / step
  {
    DivMod(a, step);
    MulMonotone(a / step + 1, k, step);
  }

  lemma DivUpper(a: nat, step: nat, k: nat)
    requires step > 0 && a < k * step
    ensures a / step < k
  {
    MulMonotone(k, a / step, step);
  }

  lemma StepsCompare(chunk: nat, overlap: int)
    requires chunk > MIN_CHUNK_TOKENS
    ensures var d := Halved(chunk); var t := StepOf(d, overlap);
      t > 0 && StepOf(chunk, overlap) <= 3 * t && chunk - d <= 2 * t
  {
  }

  lemma TripleSteps(n: nat, c: nat, d: nat, s: nat, t: nat, k: nat)
    requires k > 0 && n <= c + (k - 1) * s && s <= 3 * t && c - d <= 2 * t
    ensures n - d <= (3 * k - 1) * t
  {
    assert (k - 1) * s <= (k - 1) * (3 * t);
    assert (k - 1) * (3 * t) == 3 * (k - 1) * t;
    assert 2 * t + 3 * (k - 1) * t == (3 * k - 1) * t;
  }

  lemma WindowsReach(n: nat, chunk: nat, step: nat)
    requires step > 0
    ensures var k := WindowCount(n, chunk, step); k > 0 && n <= chunk + (k - 1) * step
  {
    if n > chunk { DivMod(n - chunk - 1, step); }
  }

  /** Halving the chunk at most triples the windows. */
  lemma HalvingTriples(n: nat, chunk: nat, overlap: int)
    requires chunk > MIN_CHUNK_TOKENS
    ensures WindowCount(n, Halved(chunk), StepOf(Halved(chunk), overlap))
            <= 3 * WindowCount(n, chunk, StepOf(chunk, overlap))
  {
    var d := Halved(chunk);
    var s, t := StepOf(chunk, overlap), StepOf(d, overlap);
    StepsCompare(chunk, overlap);
    WindowsReach(n, chunk, s);
    var k := WindowCount(n, chunk, s);
    TripleSteps(n, chunk, d, s, t, k);
    hide StepOf, Halved;
    if n > d {
      DivUpper(n - d - 1, t, 3 * k - 1);
    }
  }

  lemma DivMod(a: nat, s: nat)
    requires s > 0
    ensures a < (a / s + 1) * s
  {
  }

  /** A piece cut at one chunk size needs at most three windows at half of it. */
  lemma PieceNeedsThree(n: nat, chunk: nat, overlap: int)
    requires chunk > MIN_CHUNK_TOKENS && n <= chunk + LOOKAHEAD_WORDS - 1
    ensures WindowCount(n, Halved(chunk), StepOf(Halved(chunk), overlap)) <= 3
  {
    var d := Halved(chunk);
    var t := StepOf(d, overlap);
    if n > d {
      assert n - d - 1 < 2 * t;
      DivUpper(n - d - 1, t, 2);
    }
  }

  /** `results` are the logged calls in order, without overflows that were re-split. */
  ghost predicate Answers(log: seq<Call>, results: seq<Call>) {
    if log == [] then results == []
    else
      var init, last := log[..|log| - 1], log[|log| - 1];
      || (results != [] && results[|results| - 1] == last && Answers(init, results[..|results| - 1]))
      || (last.reply.ContextOverflow? && Answers(init, results))
  }

  lemma {:induction false} AnswersOfConcat(a: seq<Call>, r: seq<Call>, b: seq<Call>, s: seq<Call>)
    requires Answers(a, r) && Answers(b, s)
    ensures Answers(a + b, r + s)
  {
    if b == [] {
      assert a + b == a && r + s == r;
    } else {
      var init, last := b[..|b| - 1], b[|b| - 1];
      assert (a + b)[..|a + b| - 1] == a + init;
      if s != [] && s[|s| - 1] == last && Answers(init, s[..|s| - 1]) {
        AnswersOfConcat(a, r, init, s[..|s| - 1]);
        assert (r + s)[..|r + s| - 1] == r + s[..|s| - 1];
      } else {
        AnswersOfConcat(a, r, init, s);
      }
    }
  }

  ghost predicate Covered(spans: seq<Window>, k: nat) {
    exists i :: 0 <= i < |spans| && spans[i].lo <= k < spans[i].hi
  }

  /** Result `i` was asked about the words of span `i`, and together the spans hold every word before `upTo`. */
  ghost predicate Covers(ws: seq<string>, results: seq<Call>, spans: seq<Window>, upTo: nat) {
    && |results| == |spans|
    && (forall i :: 0 <= i < |spans| ==>
        spans[i].lo <= spans[i].hi <= |ws| && Split(results[i].text) == ws[spans[i].lo..spans[i].hi])
    && forall k :: 0 <= k < upTo ==> Covered(spans, k)
  }

  ghost function Shifted(spans: seq<Window>, offset: nat): seq<Window> {
    seq(|spans|, i requires 0 <= i < |spans| => Window(spans[i].lo + offset, spans[i].hi + offset))
  }

  lemma SliceOfSlice<T>(s: seq<T>, lo: nat, hi: nat, a: nat, b: nat)
    requires lo <= hi <= |s| && a <= b <= hi - lo
    ensures s[lo..hi][a..b] == s[a + lo..b + lo]
  {
    forall i | 0 <= i < b - a
      ensures s[lo..hi][a..b][i] == s[a + lo..b + lo][i]
    {
      assert s[lo..hi][a..b][i] == s[lo..hi][a + i] == s[lo + (a + i)];
    }
  }

  /** Results for one more piece, which starts no later than what is covered ends. */
  lemma CoversMore(ws: seq<string>, r: seq<Call>, a: seq<Window>, upTo: nat, w: Window, s: seq<Call>, b: seq<Window>)
    requires Covers(ws, r, a, upTo)
    requires w.lo <= upTo && w.lo <= w.hi <= |ws| && Covers(ws[w.lo..w.hi], s, b, w.hi - w.lo)
    ensures Covers(ws, r + s, a + Shifted(b, w.lo), w.hi)
  {
    var c := a + Shifted(b, w.lo);
    forall i | 0 <= i < |c|
      ensures c[i].lo <= c[i].hi <= |ws| && Split((r + s)[i].text) == ws[c[i].lo..c[i].hi]
    {
      if i >= |a| {
        var x := b[i - |a|];
        SliceOfSlice(ws, w.lo, w.hi, x.lo, x.hi);
      }
    }
    forall k | 0 <= k < w.hi
      ensures Covered(c, k)
    {
      if k < upTo {
        assert Covered(a, k);
        var i :| 0 <= i < |a| && a[i].lo <= k < a[i].hi;
        assert c[i] == a[i];
      } else {
        assert Covered(b, k - w.lo);
        var i :| 0 <= i < |b| && b[i].lo <= k - w.lo < b[i].hi;
        assert c[|a| + i] == Window(b[i].lo + w.lo, b[i].hi + w.lo);
      }
    }
  }

  lemma CoversWhole(text: string, call: Call)
    requires call.text == text
    ensures Covers(Split(text), [call], [Window(0, |Split(text)|)], |Split(text)|)
  {
    var ws, spans := Split(text), [Window(0, |Split(text)|)];
    assert ws[0..|ws|] == ws;
    forall k | 0 <= k < |ws|
      ensures Covered(spans, k)
    {
      assert spans[0].lo <= k < spans[0].hi;
    }
  }

  /** An overflow is handed back only for a text at the floor: nothing that could still be split. */
  ghost predicate Floored(results: seq<Call>, tokens: string -> nat) {
    forall i :: 0 <= i < |results| && results[i].reply.ContextOverflow? ==> AtFloor(results[i].text, tokens)
  }

  predicate AtFloor(text: string, tokens: string -> nat) {
    |Split(text)| <= MIN_CHUNK_TOKENS + LOOKAHEAD_WORDS - 1 || tokens(text) <= MIN_CHUNK_TOKENS
  }

  /** What calling on a text delivers, with `bound` calls at most. */
  ghost predicate Delivers(text: string, tokens: string -> nat, bound: nat, log: seq<Call>, results: seq<Call>,
                           spans: seq<Window>)
  {
    && Answers(log, results) && 0 < |log| <= bound
    && Covers(Split(text), results, spans, |Split(text)|)
    && Floored(results, tokens)
  }

  lemma OneCallDelivers(text: string, tokens: string -> nat, call: Call)
    requires call.text == text && (call.reply.ContextOverflow? ==> AtFloor(text, tokens))
    ensures Delivers(text, tokens, 1, [call], [call], [Window(0, |Split(text)|)])
  {
    CoversWhole(text, call);
    assert Answers([call], [call]);
    hide Split, Covers;
  }

  /** An overflow followed by a re-split. */
  lemma ResplitDelivers(text: string, tokens: string -> nat, bound: nat, call: Call, log: seq<Call>,
        results: seq<Call>, spans: seq<Window>)
    requires call.reply.ContextOverflow? && Delivers(text, tokens, bound, log, results, spans)
    ensures Delivers(text, tokens, 1 + bound, [call] + log, results, spans)
  {
    assert Answers([call], []);
    AnswersOfConcat([call], [], log, results);
    assert [] + results == results;
    hide Split, Covers, Answers;
  }

  /** The pieces of a cut text, ready to be called on in turn. */
  ghost predicate Pieces(text: string, chunk: nat, overlap: int, pieces: seq<string>, windows: seq<Window>)
    requires chunk >= MIN_CHUNK_TOKENS
  {
    var ws := Split(text);
    && ws != [] && Renders(ws, windows, pieces) && 0 < |windows| <= WindowCount(|ws|, chunk, StepOf(chunk, overlap))
    && windows[0].lo == 0 && windows[|windows| - 1].hi == |ws|
    && (forall i :: 0 <= i < |windows| ==> Proper(ws, chunk, windows[i]))
    && (forall i, j :: 0 <= i < j < |windows| && j == i + 1 ==> windows[j].lo <= windows[i].hi)
  }

  lemma CutFacts(text: string, chunk: nat, overlap: int, tokens: string -> nat, pieces: seq<string>,
        windows: seq<Window>)
    requires chunk >= MIN_CHUNK_TOKENS && Split(text) != []
    requires tokens(text) <= chunk ==> pieces == [text]
    requires tokens(text) > chunk ==>
      Cut(Split(text), chunk, Max(chunk - EffectiveOverlap(chunk, overlap), 1), windows)
          && Renders(Split(text), windows, pieces)
    ensures |pieces| > 1 ==> Pieces(text, chunk, overlap, pieces, windows)
    ensures |pieces| <= 1 && chunk <= MIN_CHUNK_TOKENS ==> AtFloor(text, tokens)
  {
    if tokens(text) > chunk {
      SplitGivesWords(text);
      CutCovers(Split(text), chunk, StepOf(chunk, overlap), windows);
      CutCount(Split(text), chunk, StepOf(chunk, overlap), windows);
    }
    hide Cut, Split, Placed, WindowCount, Join;
  }

  ghost function ReachOf(windows: seq<Window>, i: nat): nat {
    if 0 < i <= |windows| then windows[i - 1].hi else 0
  }

  lemma PieceFacts(text: string, chunk: nat, overlap: int, pieces: seq<string>, windows: seq<Window>, i: nat)
    requires chunk >= MIN_CHUNK_TOKENS && Pieces(text, chunk, overlap, pieces, windows) && i < |pieces|
    ensures |pieces| == |windows|
    ensures var ws := Split(text); var w := windows[i];
      && w.lo <= ReachOf(windows, i) && w.lo <= w.hi <= |ws| && ReachOf(windows, i + 1) == w.hi
      && Split(pieces[i]) == ws[w.lo..w.hi] && |Split(pieces[i])| <= chunk + LOOKAHEAD_WORDS - 1
  {
    var ws, w := Split(text), windows[i];
    SplitGivesWords(text);
    assert Proper(ws, chunk, w);
    JoinedIsNotBlank(ws, w);
    hide Split, Join, JoinWindow;
    if i > 0 { assert windows[i].lo <= windows[i - 1].hi; }
  }

  /** After `i` pieces: their calls, at most `each` a piece, answer for every word before `upTo`. */
  ghost predicate Collected(ws: seq<string>, tokens: string -> nat, each: nat, i: nat, upTo: nat,
                            log: seq<Call>, results: seq<Call>, spans: seq<Window>)
  {
    && Answers(log, results) && i <= |log| <= i * each
    && Covers(ws, results, spans, upTo)
    && Floored(results, tokens)
  }

  lemma NoPieces(ws: seq<string>, tokens: string -> nat, each: nat, windows: seq<Window>)
    ensures Collected(ws, tokens, each, 0, ReachOf(windows, 0), [], [], [])
  {
  }

  lemma OneMorePiece(ws: seq<string>, tokens: string -> nat, each: nat, i: nat, upTo: nat,
                     log: seq<Call>, results: seq<Call>, spans: seq<Window>,
                     piece: string, w: Window, l: seq<Call>, r: seq<Call>, s: seq<Window>)
    requires Collected(ws, tokens, each, i, upTo, log, results, spans)
    requires w.lo <= upTo && w.lo <= w.hi <= |ws| && Split(piece) == ws[w.lo..w.hi]
    requires Delivers(piece, tokens, each, l, r, s)
    ensures Collected(ws, tokens, each, i + 1, w.hi, log + l, results + r, spans + Shifted(s, w.lo))
  {
    AnswersOfConcat(log, results, l, r);
    CoversMore(ws, results, spans, upTo, w, r, s);
    hide Answers, Covers, Split, Shifted;
    assert (i + 1) * each == i * each + each;
  }

  lemma AllPieces(text: string, chunk: nat, overlap: int, tokens: string -> nat, pieces: seq<string>,
                  windows: seq<Window>, log: seq<Call>, results: seq<Call>, spans: seq<Window>)
    requires chunk >= MIN_CHUNK_TOKENS && Pieces(text, chunk, overlap, pieces, windows)
    requires Collected(Split(text), tokens, PieceCalls(Depth(chunk)), |pieces|, ReachOf(windows, |pieces|),
                       log, results, spans)
    ensures Served(text, chunk, overlap, tokens, log, results, spans)
  {
    hide Answers, Covers, Split, Floored, Depth, PieceCalls, Join;
    MulMonotone(|windows|, WindowCount(|Split(text)|, chunk, StepOf(chunk, overlap)), PieceCalls(Depth(chunk)));
  }

  lemma WholeTextDelivers(text: string, tokens: string -> nat, call: Call, bound: nat)
    requires call.text == text && AtFloor(text, tokens) && bound >= 1
    ensures Delivers(text, tokens, bound, [call], [call], [Window(0, |Split(text)|)])
  {
    OneCallDelivers(text, tokens, call);
    DeliversWithin(text, tokens, 1, bound, [call], [call], [Window(0, |Split(text)|)]);
  }

  lemma HalvingBound(n: nat, chunk: nat, overlap: int)
    requires chunk > MIN_CHUNK_TOKENS
    ensures CallBound(n, Halved(chunk), overlap) <= CallBound(n, chunk, overlap)
  {
    var w, v := WindowCount(n, chunk, StepOf(chunk, overlap)),
        WindowCount(n, Halved(chunk), StepOf(Halved(chunk), overlap));
    var p := PieceCalls(Depth(Halved(chunk)));
    HalvingTriples(n, chunk, overlap);
    CallsOfHalved(chunk);
    hide WindowCount, Depth, PieceCalls, StepOf, Halved;
    MulMonotone(v, 3 * w, p);
    ThreeTimes(w, p);
  }

  lemma CallsOfHalved(chunk: nat)
    requires chunk > MIN_CHUNK_TOKENS
    ensures PieceCalls(Depth(chunk)) == 1 + 3 * PieceCalls(Depth(Halved(chunk)))
  {
  }

  lemma ThreeTimes(w: nat, p: nat)
    ensures 3 * w * p <= w * (1 + 3 * p)
  {
  }

  /** What `_chunk_and_call` does for a text: below the floor one call, otherwise it delivers within the bound. */
  ghost predicate Served(text: string, chunk: nat, overlap: int, tokens: string -> nat,
                         log: seq<Call>, results: seq<Call>, spans: seq<Window>)
  {
    if chunk < MIN_CHUNK_TOKENS then |log| == 1 && log[0].text == text && results == log
    else Delivers(text, tokens, CallBound(|Split(text)|, chunk, overlap), log, results, spans)
  }

  lemma OneCallServes(text: string, chunk: nat, overlap: int, tokens: string -> nat, call: Call)
    requires call.text == text && (chunk < MIN_CHUNK_TOKENS || Split(text) == [] || AtFloor(text, tokens))
    ensures Served(text, chunk, overlap, tokens, [call], [call], [Window(0, |Split(text)|)])
  {
    if chunk >= MIN_CHUNK_TOKENS {
      BoundIsPositive(|Split(text)|, chunk, overlap);
      assert AtFloor(text, tokens);
      WholeTextDelivers(text, tokens, call, CallBound(|Split(text)|, chunk, overlap));
    }
    hide Delivers, CallBound, Split;
  }

  lemma HalvedServes(text: string, chunk: nat, overlap: int, tokens: string -> nat,
                     log: seq<Call>, results: seq<Call>, spans: seq<Window>)
    requires chunk > MIN_CHUNK_TOKENS && Served(text, Halved(chunk), overlap, tokens, log, results, spans)
    ensures Served(text, chunk, overlap, tokens, log, results, spans)
  {
    hide Delivers, CallBound, Split, Halved;
    var n := |Split(text)|;
    HalvingBound(n, chunk, overlap);
    DeliversWithin(text, tokens, CallBound(n, Halved(chunk), overlap), CallBound(n, chunk, overlap),
                   log, results, spans);
  }

  lemma FloorIsPositive()
    ensures MIN_CHUNK_TOKENS > 0
  {
  }

  /**
   * `_chunk_and_call`: call on the pieces of a text, re-splitting a piece that
   * overflows at half the chunk size, down to the floor.
   */
  method ChunkAndCall(chain: Chain, text: string, chunk: nat, overlap: int, tokens: string -> nat)
    returns (results: seq<Call>, ghost log: seq<Call>, ghost spans: seq<Window>)
    modifies chain
    ensures chain.calls == old(chain.calls) + log
    ensures Served(text, chunk, overlap, tokens, log, results, spans)
    decreases chunk, 2
  {
    hide *;
    FloorIsPositive();
    if Split(text) == [] || chunk < MIN_CHUNK_TOKENS {
      var call := chain.NativeOp(text);
      OneCallServes(text, chunk, overlap, tokens, call);
      return [call], [call], [Window(0, |Split(text)|)];
    }
    var pieces, windows := SplitText(text, chunk, EffectiveOverlap(chunk, overlap), tokens);
    CutFacts(text, chunk, overlap, tokens, pieces, windows);
    if |pieces| <= 1 {
      if chunk <= MIN_CHUNK_TOKENS {
        var call := chain.NativeOp(text);
        OneCallServes(text, chunk, overlap, tokens, call);
        return [call], [call], [Window(0, |Split(text)|)];
      }
      results, log, spans := ChunkAndCall(chain, text, Halved(chunk), overlap, tokens);
      HalvedServes(text, chunk, overlap, tokens, log, results, spans);
      return;
    }
    results, log, spans := CallPieces(chain, text, chunk, overlap, tokens, pieces, windows);
  }

  /** The loop of `_chunk_and_call` over the pieces. */
  method CallPieces(chain: Chain, text: string, chunk: nat, overlap: int, tokens: string -> nat,
                    pieces: seq<string>, ghost windows: seq<Window>)
    returns (results: seq<Call>, ghost log: seq<Call>, ghost spans: seq<Window>)
    requires chunk >= MIN_CHUNK_TOKENS && Pieces(text, chunk, overlap, pieces, windows)
    modifies chain
    ensures chain.calls == old(chain.calls) + log
    ensures Served(text, chunk, overlap, tokens, log, results, spans)
    decreases chunk, 1
  {
    hide *;
    ghost var ws, each := Split(text), PieceCalls(Depth(chunk));
    results, log, spans := [], [], [];
    NoPieces(ws, tokens, each, windows);
    for i := 0 to |pieces|
      invariant chain.calls == old(chain.calls) + log
      invariant Collected(ws, tokens, each, i, ReachOf(windows, i), log, results, spans)
    {
      PieceFacts(text, chunk, overlap, pieces, windows, i);
      var r, l, s := CallPiece(chain, pieces[i], chunk, overlap, tokens);
      OneMorePiece(ws, tokens, each, i, ReachOf(windows, i), log, results, spans, pieces[i], windows[i], l, r, s);
      results, log, spans := results + r, log + l, spans + Shifted(s, windows[i].lo);
    }
    AllPieces(text, chunk, overlap, tokens, pieces, windows, log, results, spans);
  }

  /** One piece of the loop in `_chunk_and_call`. */
  method CallPiece(chain: Chain, piece: string, chunk: nat, overlap: int, tokens: string -> nat)
    returns (results: seq<Call>, ghost log: seq<Call>, ghost spans: seq<Window>)
    requires chunk >= MIN_CHUNK_TOKENS && |Split(piece)| <= chunk + LOOKAHEAD_WORDS - 1
    modifies chain
    ensures chain.calls == old(chain.calls) + log
    ensures Delivers(piece, tokens, PieceCalls(Depth(chunk)), log, results, spans)
    decreases chunk, 0
  {
    var call := chain.NativeOp(piece);
    if call.reply.ContextOverflow? && chunk > MIN_CHUNK_TOKENS {
      results, log, spans := ChunkAndCall(chain, piece, Halved(chunk), overlap, tokens);
      PieceBound(|Split(piece)|, chunk, overlap);
      assert Delivers(piece, tokens, CallBound(|Split(piece)|, Halved(chunk), overlap), log, results, spans);
      hide *;
      DeliversWithin(piece, tokens, CallBound(|Split(piece)|, Halved(chunk), overlap),
                     PieceCalls(Depth(chunk)) - 1, log, results, spans);
      ResplitDelivers(piece, tokens, PieceCalls(Depth(chunk)) - 1, call, log, results, spans);
      log := [call] + log;
    } else {
      OneCallDelivers(piece, tokens, call);
      PieceCallsPositive(Depth(chunk));
      hide *;
      results, log, spans := [call], [call], [Window(0, |Split(piece)|)];
      DeliversWithin(piece, tokens, 1, PieceCalls(Depth(chunk)), log, results, spans);
    }
  }

  lemma PieceCallsPositive(depth: nat)
    ensures PieceCalls(depth) >= 1
  {
  }

  lemma BoundIsPositive(n: nat, chunk: nat, overlap: int)
    requires chunk >= MIN_CHUNK_TOKENS
    ensures CallBound(n, chunk, overlap) >= 1
  {
    PieceCallsPositive(Depth(chunk));
    MulMonotone(1, WindowCount(n, chunk, StepOf(chunk, overlap)), PieceCalls(Depth(chunk)));
  }

  /** Re-splitting a piece costs at most three windows' worth of calls. */
  lemma PieceBound(n: nat, chunk: nat, overlap: int)
    requires chunk > MIN_CHUNK_TOKENS && n <= chunk + LOOKAHEAD_WORDS - 1
    ensures 1 + CallBound(n, Halved(chunk), overlap) <= PieceCalls(Depth(chunk))
  {
    PieceNeedsThree(n, chunk, overlap);
    MulMonotone(WindowCount(n, Halved(chunk), StepOf(Halved(chunk), overlap)), 3, PieceCalls(Depth(Halved(chunk))));
  }

  lemma DeliversWithin(text: string, tokens: string -> nat, a: nat, b: nat, log: seq<Call>, results: seq<Call>,
        spans: seq<Window>)
    requires Delivers(text, tokens, a, log, results, spans) && a <= b
    ensures Delivers(text, tokens, b, log, results, spans)
  {
    hide Split, Answers, Covers, Floored;
  }

  /** The chunk size `call_native_op_chunked` settles on: the room the other fields leave, but not below the floor. */
  function RoomFor(size: int, budget: int, base: int): (chunk: nat)
    ensures chunk >= 200 && (chunk > 200 ==> chunk <= size && chunk <= budget - base)
    ensures chunk >= size || chunk >= budget - base
  {
    Max(Min(size, budget - base), MIN_CHUNK_TOKENS)
  }

  lemma ServedIsFloored(text: string, chunk: nat, overlap: int, tokens: string -> nat, log: seq<Call>,
        results: seq<Call>, spans: seq<Window>)
    requires chunk >= 200 && Served(text, chunk, overlap, tokens, log, results, spans)
    ensures forall i :: 0 <= i < |results| && results[i].reply.ContextOverflow? ==>
              |Split(results[i].text)| <= 219 || tokens(results[i].text) <= 200
  {
    hide Answers, Covers, Split, CallBound;
  }

  /**
   * `call_native_op_chunked`. `estimated` is the token estimate of the whole payload,
   * `base` that of its other fields.
   */
  method CallNativeOpChunked(chain: Chain, text: string, estimated: int, base: int, budget: int, size: int,
                             overlap: int, tokens: string -> nat)
    returns (results: seq<Call>, wasChunked: bool,
             ghost first: seq<Call>, ghost log: seq<Call>, ghost spans: seq<Window>)
    modifies chain
    ensures chain.calls == old(chain.calls) + first + log
    ensures first == if estimated <= budget then [Call(text, chain.answer(old(chain.calls), text))] else []
    ensures estimated <= budget && !first[0].reply.ContextOverflow? ==> results == first && log == [] && !wasChunked
    ensures estimated > budget || first[0].reply.ContextOverflow? ==>
      && (wasChunked <==> base <= budget)
      && (!wasChunked ==> results == log && |log| == 1 && log[0].text == text)
      && (wasChunked ==> Served(text, RoomFor(size, budget, base), overlap, tokens, log, results, spans))
    ensures wasChunked ==> forall i :: 0 <= i < |results| && results[i].reply.ContextOverflow? ==>
              |Split(results[i].text)| <= 219 || tokens(results[i].text) <= 200
  {
    hide *;
    first, log, spans := [], [], [];
    if estimated <= budget {
      var call := chain.NativeOp(text);
      first := [call];
      if !call.reply.ContextOverflow? { return [call], false, first, log, spans; }
    }
    if base > budget {
      var call := chain.NativeOp(text);
      return [call], false, first, [call], spans;
    }
    results, log, spans := ChunkAndCall(chain, text, RoomFor(size, budget, base), overlap, tokens);
    wasChunked := true;
    ServedIsFloored(text, RoomFor(size, budget, base), overlap, tokens, log, results, spans);
  }
}
