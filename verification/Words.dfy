/** `str.split()` and `" ".join(...)`: words, and the text they make up. */
module Words {

  /** The ASCII whitespace of `str.split`. */
  predicate IsSpace(c: char) {
    9 <= c as int <= 13 || 28 <= c as int <= 32
  }

  ghost predicate IsWord(w: string) {
    w != "" && forall i :: 0 <= i < |w| ==> !IsSpace(w[i])
  }

  ghost predicate AllWords(ws: seq<string>) {
    forall i :: 0 <= i < |ws| ==> IsWord(ws[i])
  }

  /** Length of the longest prefix without whitespace. */
  function WordLength(t: string): (n: nat)
    ensures n <= |t|
    ensures forall i :: 0 <= i < n ==> !IsSpace(t[i])
    ensures n < |t| ==> IsSpace(t[n])
  {
    if t == "" || IsSpace(t[0]) then 0 else 1 + WordLength(t[1..])
  }

  function Split(t: string): seq<string> {
    if t == "" then []
    else if IsSpace(t[0]) then Split(t[1..])
    else
      var n := WordLength(t);
      [t[..n]] + Split(t[n..])
  }

  function Join(ws: seq<string>): string {
    if ws == [] then ""
    else if |ws| == 1 then ws[0]
    else ws[0] + " " + Join(ws[1..])
  }

  lemma {:induction false} SplitGivesWords(t: string)
    ensures AllWords(Split(t))
    decreases |t|
  {
    if t != "" {
      if IsSpace(t[0]) {
        SplitGivesWords(t[1..]);
      } else {
        SplitGivesWords(t[WordLength(t)..]);
      }
    }
  }

  /** Words with text between and around them. */
  function Spaced(ws: seq<string>, gaps: seq<string>): string
    requires |gaps| == |ws| + 1
  {
    if ws == [] then gaps[0] else gaps[0] + (ws[0] + Spaced(ws[1..], gaps[1..]))
  }

  /** Tab, line feed, vertical tab, form feed, carriage return, the four separators and space. */
  ghost predicate AllBlank(gap: string) {
    forall i :: 0 <= i < |gap| ==> gap[i] as int in {9, 10, 11, 12, 13, 28, 29, 30, 31, 32}
  }

  ghost predicate NoBlank(w: string) {
    w != "" && forall i :: 0 <= i < |w| ==> w[i] as int !in {9, 10, 11, 12, 13, 28, 29, 30, 31, 32}
  }

  /** Gaps of whitespace, not empty between two words. */
  ghost predicate AreGaps(gaps: seq<string>) {
    (forall i :: 0 <= i < |gaps| ==> AllBlank(gaps[i])) && forall i :: 0 < i < |gaps| - 1 ==> gaps[i] != ""
  }

  lemma {:induction false} SplitSkipsBlank(gap: string, t: string)
    requires AllBlank(gap)
    ensures Split(gap + t) == Split(t)
  {
    if gap == "" {
      assert gap + t == t;
    } else {
      assert (gap + t)[0] == gap[0] && (gap + t)[1..] == gap[1..] + t;
      SplitSkipsBlank(gap[1..], t);
    }
  }

  lemma SplitTakesWord(w: string, t: string)
    requires NoBlank(w) && (t == "" || IsSpace(t[0]))
    ensures Split(w + t) == [w] + Split(t)
  {
    var s := w + t;
    assert forall i :: 0 <= i < |w| ==> s[i] == w[i];
    assert t != "" ==> s[|w|] == t[0];
    assert !IsSpace(s[0]);
    var n := WordLength(s);
    assert s[..n] == w && s[n..] == t;
  }

  /** The words of a text are what its whitespace separates, whatever whitespace that is. */
  lemma {:induction false} SplitOfSpaced(ws: seq<string>, gaps: seq<string>)
    requires |gaps| == |ws| + 1 && AreGaps(gaps) && forall i :: 0 <= i < |ws| ==> NoBlank(ws[i])
    ensures Split(Spaced(ws, gaps)) == ws
  {
    if ws == [] {
      SplitSkipsBlank(gaps[0], "");
      assert gaps[0] + "" == gaps[0];
    } else {
      var rest := Spaced(ws[1..], gaps[1..]);
      SplitSkipsBlank(gaps[0], ws[0] + rest);
      SplitOfSpaced(ws[1..], gaps[1..]);
      StartsWithGap(ws[1..], gaps[1..]);
      SplitTakesWord(ws[0], rest);
    }
  }

  lemma StartsWithGap(ws: seq<string>, gaps: seq<string>)
    requires |gaps| == |ws| + 1 && AllBlank(gaps[0]) && (gaps[0] != "" || ws == [])
    ensures Spaced(ws, gaps) == "" || IsSpace(Spaced(ws, gaps)[0])
  {
    assert gaps[0] != "" ==> Spaced(ws, gaps)[0] == gaps[0][0];
  }

  /** Splitting undoes joining. */
  lemma {:induction false} SplitOfJoin(ws: seq<string>)
    requires AllWords(ws)
    ensures Split(Join(ws)) == ws
  {
    if ws != [] {
      var w := ws[0];
      assert IsWord(w);
      var t := Join(ws);
      if |ws| == 1 {
        assert WordLength(t) == |w| && t[..|w|] == w && t[|w|..] == "";
        assert Split("") == [];
      } else {
        var rest := Join(ws[1..]);
        SplitOfJoin(ws[1..]);
        assert t == w + (" " + rest);
        assert IsSpace(t[|w|]) && WordLength(t) == |w|;
        assert t[..|w|] == w && t[|w|..] == " " + rest;
        assert (" " + rest)[1..] == rest;
        assert Split(" " + rest) == Split(rest);
      }
      assert ws == [w] + ws[1..];
    }
  }
}
