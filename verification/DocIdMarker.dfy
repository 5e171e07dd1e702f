/** The doc-id marker stamped into a document, and getting the doc-id back out of it. */
module DocIdMarker {
  import opened Prelude
  import opened Words
  import opened ListPacking

  const PREFIX: string := "[membench_doc_id::"

  /** `s.replace(pat, rep)` */
  function Replace(s: string, pat: string, rep: string): string
    requires pat != ""
  {
    if s == "" then ""
    else if |pat| <= |s| && s[..|pat|] == pat then rep + Replace(s[|pat|..], pat, rep)
    else [s[0]] + Replace(s[1..], pat, rep)
  }

  function EncodeDocId(id: string): string {
    Replace(Replace(Replace(id, "%", "%25"), "]", "%5D"), "\n", "%0A")
  }

  function DecodeDocId(encoded: string): string {
    Replace(Replace(Replace(encoded, "%5D", "]"), "%0A", "\n"), "%25", "%")
  }

  // ---------- decoding undoes encoding ----------

  /** The code of one character when only the escapes in `which` are in place. */
  function Code(c: char, which: set<char>): string {
    if c !in which then [c]
    else if c == '%' then "%25"
    else if c == ']' then "%5D"
    else if c == '\n' then "%0A"
    else [c]
  }

  function Coded(s: string, which: set<char>): string {
    if s == "" then "" else Code(s[0], which) + Coded(s[1..], which)
  }

  lemma ReplaceHead(s: string, c: char, rep: string)
    requires s != ""
    ensures Replace(s, [c], rep) == (if s[0] == c then rep else [s[0]]) + Replace(s[1..], [c], rep)
  {
    assert s[..1] == [s[0]];
  }

  /** A pattern of one character is replaced character by character. */
  lemma {:induction false} ReplaceChar(s: string, t: string, c: char, rep: string)
    ensures Replace(s + t, [c], rep) == Replace(s, [c], rep) + Replace(t, [c], rep)
  {
    if s == "" {
      assert s + t == t;
    } else {
      var u := s + t;
      assert u[1..] == s[1..] + t && u[..1] == [s[0]] && s[..1] == [s[0]];
      ReplaceChar(s[1..], t, c, rep);
      var head := if s[0] == c then rep else [s[0]];
      ReplaceHead(u, c, rep);
      ReplaceHead(s, c, rep);
      hide Replace;
      assert head + (Replace(s[1..], [c], rep) + Replace(t, [c], rep))
             == head + Replace(s[1..], [c], rep) + Replace(t, [c], rep);
    }
  }

  lemma ReplaceOne(d: char, c: char, rep: string)
    ensures Replace([d], [c], rep) == if d == c then rep else [d]
  {
    assert [d][..1] == [d] && [d][1..] == "";
    assert Replace("", [c], rep) == "";
  }

  /** Escaping one more character, not used by the escapes so far. */
  lemma {:induction false} EscapeMore(s: string, which: set<char>, c: char)
    requires c in {'%', ']', '\n'} && c !in which && (c == '%' ==> which == {})
    ensures Replace(Coded(s, which), [c], Code(c, {c})) == Coded(s, which + {c})
  {
    if s != "" {
      EscapeMore(s[1..], which, c);
      ReplaceChar(Code(s[0], which), Coded(s[1..], which), c, Code(c, {c}));
      EscapeCode(s[0], which, c);
    }
  }

  lemma EscapeCode(d: char, which: set<char>, c: char)
    requires c in {'%', ']', '\n'} && c !in which && (c == '%' ==> which == {})
    ensures Replace(Code(d, which), [c], Code(c, {c})) == Code(d, which + {c})
  {
    var rep, code := Code(c, {c}), Code(d, which);
    if |code| == 1 {
      ReplaceOne(d, c, rep);
    } else {
      ReplaceChar([code[0]], code[1..], c, rep);
      ReplaceChar([code[1]], code[2..], c, rep);
      assert code == [code[0]] + code[1..] && code[1..] == [code[1]] + code[2..] && code[2..] == [code[2]];
      ReplaceOne(code[0], c, rep);
      ReplaceOne(code[1], c, rep);
      ReplaceOne(code[2], c, rep);
    }
  }

  lemma {:induction false} NothingCoded(s: string)
    ensures Coded(s, {}) == s
  {
    if s != "" {
      NothingCoded(s[1..]);
      assert s == [s[0]] + s[1..];
    }
  }

  /** The three replacements encode character by character. */
  lemma EncodeIsCoded(s: string)
    ensures EncodeDocId(s) == Coded(s, {'%', ']', '\n'})
  {
    NothingCoded(s);
    EscapeMore(s, {}, '%');
    assert {} + {'%'} == {'%'};
    EscapeMore(s, {'%'}, ']');
    EscapeMore(s, {'%'} + {']'}, '\n');
    assert {'%'} + {']'} + {'\n'} == {'%', ']', '\n'};
  }

  /** Undoing the escape of `c` over one coded character, with any text behind it. */
  lemma UnescapeCode(d: char, which: set<char>, c: char, rest: string)
    requires c in which && which <= {'%', ']', '\n'} && (c == '%' ==> which == {'%'}) && (c != '%' ==> '%' in which)
    ensures Replace(Code(d, which) + rest, Code(c, {c}), [c]) == Code(d, which - {c}) + Replace(rest, Code(c, {c}), [c])
  {
    var pat, code := Code(c, {c}), Code(d, which);
    var s := code + rest;
    if d == c {
      assert s[..3] == pat && s[3..] == rest;
    } else if |code| == 1 {
      assert s[0] == d && s[1..] == rest;
      assert |pat| <= |s| ==> s[..|pat|][0] == d;
    } else {
      Skip(s, pat, [c]);
      assert s[..3] == code;
      assert s[1..] == [code[1]] + ([code[2]] + rest);
      Skip(s[1..], pat, [c]);
      Skip([code[2]] + rest, pat, [c]);
      assert ([code[2]] + rest)[1..] == rest && s[1..][1..] == [code[2]] + rest;
      assert [code[0]] + ([code[1]] + ([code[2]] + Replace(rest, pat, [c]))) == code + Replace(rest, pat, [c]);
    }
  }

  /** Where the pattern does not begin, a character is copied. */
  lemma Skip(s: string, pat: string, rep: string)
    requires s != "" && |pat| == 3
    ensures (s[0] != pat[0] || (|s| >= 3 && s[..3] != pat)) ==>
              Replace(s, pat, rep) == [s[0]] + Replace(s[1..], pat, rep)
  {
    if |s| >= 3 { assert s[..3][0] == s[0]; }
  }

  lemma {:induction false} UnescapeOne(s: string, which: set<char>, c: char)
    requires c in which && which <= {'%', ']', '\n'} && (c == '%' ==> which == {'%'}) && (c != '%' ==> '%' in which)
    ensures Replace(Coded(s, which), Code(c, {c}), [c]) == Coded(s, which - {c})
  {
    if s != "" {
      UnescapeOne(s[1..], which, c);
      UnescapeCode(s[0], which, c, Coded(s[1..], which));
    }
  }

  /** Decoding undoes encoding, although both work by successive replacements. */
  lemma DecodeUndoesEncode(id: string)
    ensures DecodeDocId(EncodeDocId(id)) == id
  {
    EncodeIsCoded(id);
    var all := {'%', ']', '\n'};
    UnescapeOne(id, all, ']');
    assert all - {']'} == {'%', '\n'};
    UnescapeOne(id, {'%', '\n'}, '\n');
    assert {'%', '\n'} - {'\n'} == {'%'};
    UnescapeOne(id, {'%'}, '%');
    assert {'%'} - {'%'} == {};
    NothingCoded(id);
  }

  /** An encoded doc-id never ends the marker early, and is empty only for the empty doc-id. */
  lemma EncodedIsClean(id: string)
    ensures forall i :: 0 <= i < |EncodeDocId(id)| ==> EncodeDocId(id)[i] != ']' && EncodeDocId(id)[i] != '\n'
    ensures EncodeDocId(id) == "" <==> id == ""
  {
    EncodeIsCoded(id);
    CodedIsClean(id);
  }

  lemma {:induction false} CodedIsClean(s: string)
    ensures var e := Coded(s, {'%', ']', '\n'});
      (forall i :: 0 <= i < |e| ==> e[i] != ']' && e[i] != '\n') && (e == "" <==> s == "")
  {
    if s != "" { CodedIsClean(s[1..]); }
  }

  // ---------- stamping ----------

  function Lstrip(s: string): string {
    if s != "" && IsSpace(s[0]) then Lstrip(s[1..]) else s
  }

  /** Neither blank nor a heading. */
  predicate IsBody(line: string) {
    var stripped := Lstrip(line);
    stripped != "" && stripped[0] != '#'
  }

  /** What is stripped is the whitespace in front, all of it and nothing else. */
  lemma {:induction false} LstripIs(s: string, d: nat)
    requires d <= |s| && AllBlank(s[..d]) && (d < |s| ==> NoBlank([s[d]]))
    ensures Lstrip(s) == s[d..]
  {
    if d > 0 {
      assert s[..d][0] == s[0] && s[..d][1..] == s[1..][..d - 1];
      LstripIs(s[1..], d - 1);
      assert s[1..][d - 1..] == s[d..];
    } else if s != "" {
      assert [s[0]][0] == s[0];
    }
  }

  lemma {:induction false} Indentation(s: string) returns (d: nat)
    ensures d <= |s| && AllBlank(s[..d]) && (d < |s| ==> NoBlank([s[d]]))
  {
    d := 0;
    if s != "" && IsSpace(s[0]) {
      d := Indentation(s[1..]);
      d := d + 1;
      assert s[..d] == [s[0]] + s[1..][..d - 1];
    }
  }

  /** A body line is one whose first character that is not whitespace exists and is not a number sign. */
  lemma IsBodyExactlyWhen(line: string)
    ensures IsBody(line) <==>
      exists d :: 0 <= d < |line| && AllBlank(line[..d]) && NoBlank([line[d]]) && line[d] != '#'
  {
    var d := Indentation(line);
    LstripIs(line, d);
    if e :| 0 <= e < |line| && AllBlank(line[..e]) && NoBlank([line[e]]) && line[e] != '#' {
      LstripIs(line, e);
    }
  }

  /** Encoding goes character by character: three characters get a code, every other stands for itself. */
  lemma EncodeCharacters(c: char, s: string)
    ensures EncodeDocId("") == ""
    ensures EncodeDocId([c] + s)
            == (match c case '%' => "%25" case ']' => "%5D" case '\n' => "%0A" case _ => [c]) + EncodeDocId(s)
  {
    EncodeIsCoded("");
    EncodeIsCoded(s);
    EncodeIsCoded([c] + s);
    assert ([c] + s)[1..] == s;
  }

  /** The marker without the space that follows it inline. */
  function Marker(id: string): string {
    PREFIX + EncodeDocId(id) + "]"
  }

  /** The text before the stamp: the lines up to the first body line, or nothing if there is none. */
  function Before(lines: seq<string>): string {
    var i := FirstBody(lines);
    if i < |lines| then Concat(lines[..i]) else ""
  }

  /** The text behind the marker. */
  function Behind(lines: seq<string>): string {
    var i := FirstBody(lines);
    if i < |lines| then " " + Lstrip(lines[i]) + Concat(lines[i + 1..]) else "\n\n" + Concat(lines)
  }

  function FirstBody(lines: seq<string>): (i: nat)
    ensures i <= |lines| && (i < |lines| ==> IsBody(lines[i]))
    ensures forall k :: 0 <= k < i ==> !IsBody(lines[k])
  {
    if lines == [] || IsBody(lines[0]) then 0 else 1 + FirstBody(lines[1..])
  }

  lemma {:induction false} ConcatSplit(lines: seq<string>, i: nat)
    requires i <= |lines|
    ensures Concat(lines) == Concat(lines[..i]) + Concat(lines[i..])
  {
    if i == 0 {
      assert lines[..0] == [] && lines[0..] == lines;
    } else {
      ConcatSplit(lines[1..], i - 1);
      assert lines[..i][1..] == lines[1..][..i - 1] && lines[1..][i - 1..] == lines[i..];
    }
  }

  lemma ConcatAround(lines: seq<string>, i: nat)
    requires i < |lines|
    ensures Concat(lines) == Concat(lines[..i]) + lines[i] + Concat(lines[i + 1..])
  {
    ConcatSplit(lines, i);
    assert lines[i..][0] == lines[i] && lines[i..][1..] == lines[i + 1..];
    var a, b, c := Concat(lines[..i]), lines[i], Concat(lines[i + 1..]);
    assert Concat(lines[i..]) == b + c;
    hide Concat;
    Associate(a, b, c);
  }

  lemma Associate(a: string, b: string, c: string)
    ensures a + (b + c) == a + b + c
  {
  }

  lemma FirstBodyIs(lines: seq<string>, i: nat)
    requires i <= |lines| && (i < |lines| ==> IsBody(lines[i])) && forall k :: 0 <= k < i ==> !IsBody(lines[k])
    ensures FirstBody(lines) == i
  {
  }

  lemma Regroup(a: string, m: string, sp: string, l: string, c: string)
    ensures a + (m + sp + l) + c == a + m + (sp + l + c)
  {
    Associate(m, sp, l);
    Associate(a, m, sp + l);
    Associate(a + m, sp + l, c);
  }

  /** `_mark_content`, given the text's lines with their ends. */
  method MarkContent(id: string, lines: seq<string>) returns (content: string)
    ensures content == Before(lines) + Marker(id) + Behind(lines)
    ensures content == Before(lines) + ("[membench_doc_id::" + EncodeDocId(id) + "]") + Behind(lines)
  {
    var marker := PREFIX + EncodeDocId(id) + "] ";
    for i := 0 to |lines|
      invariant forall k :: 0 <= k < i ==> !IsBody(lines[k])
    {
      if IsBody(lines[i]) {
        FirstBodyIs(lines, i);
        var marked := lines[i := marker + Lstrip(lines[i])];
        content := Concat(marked);
        ConcatAround(marked, i);
        assert marked[..i] == lines[..i] && marked[i + 1..] == lines[i + 1..];
        assert marker == Marker(id) + " ";
        hide Lstrip, Concat, EncodeDocId, Marker, IsBody;
        Regroup(Concat(lines[..i]), Marker(id), " ", Lstrip(lines[i]), Concat(lines[i + 1..]));
        return;
      }
    }
    FirstBodyIs(lines, |lines|);
    content := PREFIX + EncodeDocId(id) + "]" + "\n\n" + Concat(lines);
    hide Concat, EncodeDocId;
  }

  /** Apart from the marker and the stamped line's indentation the document is unchanged. */
  lemma OnlyIndentationIsLost(lines: seq<string>)
    ensures var i := FirstBody(lines);
      if i < |lines| then
        Concat(lines) == Before(lines) + lines[i] + Concat(lines[i + 1..])
        && Behind(lines) == " " + Lstrip(lines[i]) + Concat(lines[i + 1..])
      else Before(lines) == "" && Behind(lines) == "\n\n" + Concat(lines)
  {
    hide FirstBody, Lstrip, Concat, IsBody;
    if FirstBody(lines) < |lines| { ConcatAround(lines, FirstBody(lines)); }
  }

  // ---------- recovery ----------

  predicate PrefixAt(s: string, p: nat) {
    p + |PREFIX| <= |s| && s[p..p + |PREFIX|] == PREFIX
  }

  /** Length of the run of characters other than `]` and newline. */
  function RunLength(s: string): (n: nat)
    ensures n <= |s| && forall i :: 0 <= i < n ==> s[i] != ']' && s[i] != '\n'
    ensures n < |s| ==> s[n] == ']' || s[n] == '\n'
  {
    if s == "" || s[0] == ']' || s[0] == '\n' then 0 else 1 + RunLength(s[1..])
  }

  /** The captured group of a match of the marker pattern at position `p`. */
  function MatchAt(s: string, p: nat): Option<string>
    requires p <= |s|
  {
    if !PrefixAt(s, p) then None
    else
      var rest := s[p + |PREFIX|..];
      var n := RunLength(rest);
      if 0 < n < |rest| && rest[n] == ']' then Some(rest[..n]) else None
  }

  /** A match is the marker's prefix, one or more characters other than `]` and newline, and `]`. */
  lemma MatchAtExactlyWhen(s: string, p: nat, group: string)
    requires p <= |s|
    ensures MatchAt(s, p) == Some(group) <==>
      && "[membench_doc_id::" + group + "]" <= s[p..] && group != ""
      && forall i :: 0 <= i < |group| ==> group[i] != ']' && group[i] != '\n'
  {
    if MatchAt(s, p) == Some(group) {
      var rest := s[p + |PREFIX|..];
      var n := RunLength(rest);
      assert rest[..n + 1] == group + "]";
      assert s[p..][..|PREFIX|] == PREFIX && s[p..][|PREFIX|..] == rest;
      assert s[p..][..|PREFIX| + n + 1] == PREFIX + (group + "]");
    }
    if "[membench_doc_id::" + group + "]" <= s[p..] && group != ""
       && forall i :: 0 <= i < |group| ==> group[i] != ']' && group[i] != '\n' {
      GroupMatches(s, p, group);
    }
  }

  lemma GroupMatches(s: string, p: nat, group: string)
    requires p <= |s| && PREFIX + group + "]" <= s[p..] && group != ""
    requires forall i :: 0 <= i < |group| ==> group[i] != ']' && group[i] != '\n'
    ensures MatchAt(s, p) == Some(group)
  {
    var m, n := |PREFIX|, |group|;
    var all := PREFIX + group + "]";
    assert s[p..][..|all|] == all;
    assert s[p..p + m] == all[..m] == PREFIX;
    var rest := s[p + m..];
    assert rest[..n + 1] == all[m..] == group + "]";
    assert rest[..n] == rest[..n + 1][..n] == group && rest[n] == rest[..n + 1][n] == ']';
    assert forall i :: 0 <= i < n ==> rest[i] == rest[..n][i];
    RunLengthIs(rest, n);
  }

  /** The leftmost match from position `p` on. */
  function SearchFrom(s: string, p: nat): Option<string>
    requires p <= |s|
    decreases |s| - p
  {
    if MatchAt(s, p).Some? then MatchAt(s, p)
    else if p == |s| then None
    else SearchFrom(s, p + 1)
  }

  /** `_doc_id_from_content` */
  function DocIdFromContent(content: string, validIds: set<string>): Option<string> {
    var m := SearchFrom(content, 0);
    if m.None? then None
    else
      var decoded := DecodeDocId(m.value);
      if decoded in validIds then Some(decoded) else None
  }

  lemma {:induction false} SearchFinds(s: string, p: nat, q: nat)
    requires p <= q <= |s| && MatchAt(s, q).Some? && forall k :: p <= k < q ==> MatchAt(s, k).None?
    ensures SearchFrom(s, p) == MatchAt(s, q)
    decreases q - p
  {
    if p < q { SearchFinds(s, p + 1, q); }
  }

  lemma RunLengthIs(s: string, n: nat)
    requires n < |s| && (forall i :: 0 <= i < n ==> s[i] != ']' && s[i] != '\n') && s[n] == ']'
    ensures RunLength(s) == n
  {
    var m := RunLength(s);
    assert m <= n;
  }

  /** The pattern matches where the marker stands. */
  lemma MarkerMatches(pre: string, id: string, post: string)
    requires id != ""
    ensures MatchAt(pre + Marker(id) + post, |pre|) == Some(EncodeDocId(id))
  {
    var e := EncodeDocId(id);
    EncodedIsClean(id);
    hide EncodeDocId, RunLength;
    var s := pre + Marker(id) + post;
    var rest := e + "]" + post;
    MarkerLayout(pre, e, post);
    assert rest[|e|] == ']';
    RunLengthIs(rest, |e|);
    assert rest[..|e|] == e;
  }

  lemma MarkerLayout(pre: string, e: string, post: string)
    ensures var s := pre + (PREFIX + e + "]") + post;
      PrefixAt(s, |pre|) && s[|pre| + |PREFIX|..] == e + "]" + post
  {
    var s := pre + (PREFIX + e + "]") + post;
    assert s == pre + (PREFIX + (e + "]" + post));
    assert s[|pre|..|pre| + |PREFIX|] == PREFIX;
  }

  /** The prefix cannot begin in the text before the marker and end in the marker: its bracket comes first. */
  lemma NoStraddle(pre: string, rest: string, p: nat)
    requires p < |pre| && rest != "" && rest[0] == '['
    ensures PrefixAt(pre + rest, p) ==> PrefixAt(pre, p)
  {
    var s := pre + rest;
    if PrefixAt(s, p) {
      if p + |PREFIX| <= |pre| {
        assert s[p..p + |PREFIX|] == pre[p..p + |PREFIX|];
      } else {
        var k := |pre| - p;
        assert s[p..p + |PREFIX|][k] == s[|pre|] == '[';
        PrefixHasOneBracket(k);
      }
    }
  }

  lemma PrefixHasOneBracket(k: nat)
    requires k < |PREFIX|
    ensures PREFIX[k] == '[' <==> k == 0
  {
  }

  /** A stamped non-empty doc-id is recovered when the marker prefix does not occur before the stamp. */
  lemma StampIsRecovered(id: string, lines: seq<string>, validIds: set<string>)
    requires id != "" && id in validIds
    requires forall p :: 0 <= p < |Before(lines)| ==> !PrefixAt(Before(lines), p)
    ensures DocIdFromContent(Before(lines) + Marker(id) + Behind(lines), validIds) == Some(id)
  {
    hide Before, Behind;
    RecoveredBehind(Before(lines), id, Behind(lines));
    DecodeUndoesEncode(id);
  }

  lemma RecoveredBehind(pre: string, id: string, post: string)
    requires id != "" && forall p :: 0 <= p < |pre| ==> !PrefixAt(pre, p)
    ensures SearchFrom(pre + Marker(id) + post, 0) == Some(EncodeDocId(id))
  {
    var s := pre + Marker(id) + post;
    MarkerMatches(pre, id, post);
    var rest := Marker(id) + post;
    assert s == pre + rest && rest[0] == '[';
    hide Marker, EncodeDocId;
    forall k | 0 <= k < |pre|
      ensures MatchAt(s, k).None?
    {
      NoStraddle(pre, rest, k);
    }
    SearchFinds(s, 0, |pre|);
  }

  /** A document without a body line has its stamp first, and is always recovered. */
  lemma HeadingOnlyIsRecovered(id: string, lines: seq<string>, validIds: set<string>)
    requires id != "" && id in validIds && forall i :: 0 <= i < |lines| ==> !IsBody(lines[i])
    ensures DocIdFromContent(Before(lines) + Marker(id) + Behind(lines), validIds) == Some(id)
  {
    FirstBodyIs(lines, |lines|);
    StampIsRecovered(id, lines, validIds);
  }

  // ---------- exactly when recovery succeeds ----------

  lemma {:induction false} ReplaceNonEmpty(s: string, pat: string, rep: string)
    requires pat != "" && rep != "" && s != ""
    ensures Replace(s, pat, rep) != ""
  {
  }

  /** Recovery never yields the empty doc-id: the pattern wants a character, and decoding leaves one. */
  lemma EmptyIdIsNeverRecovered(content: string, validIds: set<string>)
    ensures DocIdFromContent(content, validIds) != Some("")
  {
    var _ := FirstMatch(content, 0);
    var m := SearchFrom(content, 0);
    if m.Some? {
      ReplaceNonEmpty(m.value, "%5D", "]");
      ReplaceNonEmpty(Replace(m.value, "%5D", "]"), "%0A", "\n");
      ReplaceNonEmpty(Replace(Replace(m.value, "%5D", "]"), "%0A", "\n"), "%25", "%");
    }
  }

  /** The search finds the leftmost match, if there is one. */
  lemma {:induction false} FirstMatch(s: string, p: nat) returns (q: nat)
    requires p <= |s|
    ensures SearchFrom(s, p).None? ==> forall k :: p <= k <= |s| ==> MatchAt(s, k).None?
    ensures SearchFrom(s, p).Some? ==>
              && p <= q <= |s| && SearchFrom(s, p) == MatchAt(s, q) && SearchFrom(s, p).value != ""
              && forall k :: p <= k < q ==> MatchAt(s, k).None?
    decreases |s| - p
  {
    q := p;
    if MatchAt(s, p).None? && p < |s| {
      q := FirstMatch(s, p + 1);
      hide MatchAt;
    }
  }

  /** A marker prefix that neither a bracket nor a newline follows in this text. */
  ghost predicate OpenAt(pre: string, p: nat) {
    PrefixAt(pre, p) && forall i :: p + |PREFIX| <= i < |pre| ==> pre[i] != ']' && pre[i] != '\n'
  }

  /** A match within the text before the stamp is a match of the whole. */
  lemma MatchWithin(pre: string, rest: string, p: nat)
    requires p <= |pre| && MatchAt(pre, p).Some?
    ensures MatchAt(pre + rest, p) == MatchAt(pre, p) && !OpenAt(pre, p)
    ensures forall k :: 0 <= k < p ==> !OpenAt(pre, k)
  {
    var s, from := pre + rest, p + |PREFIX|;
    var group := pre[from..];
    var n := RunLength(group);
    assert s[p..from] == pre[p..from];
    assert s[from..] == group + rest;
    RunLengthIs(group + rest, n);
    assert (group + rest)[..n] == group[..n];
    assert pre[from + n] == ']';
  }

  /** A match of the whole that is none within the text before the stamp runs on into the stamp. */
  lemma MatchRunsOn(pre: string, rest: string, p: nat)
    requires p < |pre| && rest != "" && rest[0] == '['
    requires MatchAt(pre, p).None? && MatchAt(pre + rest, p).Some?
    ensures OpenAt(pre, p)
  {
    NoStraddle(pre, rest, p);
    var s, from := pre + rest, p + |PREFIX|;
    var group := pre[from..];
    assert s[from..] == group + rest;
    hide PrefixAt, RunLength;
    RunOver(group, rest);
    assert RunLength(group) == |group|;
    forall i | from <= i < |pre|
      ensures pre[i] != ']' && pre[i] != '\n'
    {
      assert group[i - from] == pre[i];
    }
  }

  /** A run that ends within `a` ends there whatever follows. */
  lemma {:induction false} RunOver(a: string, b: string)
    ensures RunLength(a) < |a| ==> RunLength(a + b) == RunLength(a)
  {
    if a != "" {
      assert (a + b)[1..] == a[1..] + b;
      RunOver(a[1..], b);
    }
  }

  /** Its group then is all of the stamp's prefix and code with something before them ... */
  lemma OpenGroup(pre: string, id: string, post: string, p: nat)
    requires p < |pre| && OpenAt(pre, p)
    ensures MatchAt(pre + Marker(id) + post, p) == Some(pre[p + |PREFIX|..] + (PREFIX + EncodeDocId(id)))
  {
    var s, from := pre + Marker(id) + post, p + |PREFIX|;
    var group := pre[from..] + (PREFIX + EncodeDocId(id));
    EncodedIsClean(id);
    PrefixIsClean();
    hide EncodeDocId, RunLength;
    assert s[p..from] == pre[p..from];
    assert s[from..] == group + ("]" + post);
    RunLengthIs(group + ("]" + post), |group|);
    assert (group + ("]" + post))[..|group|] == group;
  }

  lemma PrefixIsClean()
    ensures forall i :: 0 <= i < |PREFIX| ==> PREFIX[i] != ']' && PREFIX[i] != '\n'
  {
  }

  function Count(s: string, c: char): nat {
    multiset(s)[c]
  }

  lemma {:induction false} ReplaceCounts(s: string, pat: string, rep: string, c: char)
    requires pat != "" && c !in pat && c !in rep
    ensures Count(Replace(s, pat, rep), c) == Count(s, c)
  {
    if s != "" {
      if |pat| <= |s| && s[..|pat|] == pat {
        ReplaceCounts(s[|pat|..], pat, rep, c);
        assert s == pat + s[|pat|..];
        CountOfSum(pat, s[|pat|..], c);
        CountOfSum(rep, Replace(s[|pat|..], pat, rep), c);
      } else {
        ReplaceCounts(s[1..], pat, rep, c);
        assert s == [s[0]] + s[1..];
        CountOfSum([s[0]], s[1..], c);
        CountOfSum([s[0]], Replace(s[1..], pat, rep), c);
      }
      hide Count;
    }
  }

  lemma CountOfSum(a: string, b: string, c: char)
    ensures Count(a + b, c) == Count(a, c) + Count(b, c)
    ensures c !in a ==> Count(a, c) == 0
  {
  }

  /** Neither encoding nor decoding changes the number of opening brackets. */
  lemma DecodeCounts(s: string)
    ensures Count(DecodeDocId(s), '[') == Count(s, '[')
  {
    var a := Replace(s, "%5D", "]");
    var b := Replace(a, "%0A", "\n");
    ReplaceCounts(s, "%5D", "]", '[');
    ReplaceCounts(a, "%0A", "\n", '[');
    ReplaceCounts(b, "%25", "%", '[');
  }

  /** ... so it has a bracket more than the doc-id, and decodes to something else. */
  lemma OpenIsAnotherId(pre: string, id: string, p: nat)
    requires PrefixAt(pre, p)
    ensures DecodeDocId(pre[p + |PREFIX|..] + (PREFIX + EncodeDocId(id))) != id
  {
    var e, head := EncodeDocId(id), pre[p + |PREFIX|..];
    DecodeCounts(e);
    DecodeCounts(head + (PREFIX + e));
    DecodeUndoesEncode(id);
    var prefix := PREFIX;
    assert prefix != "" && prefix[0] == '[';
    hide *;
    OneMoreBracket(head, prefix, e);
  }

  lemma OneMoreBracket(head: string, prefix: string, e: string)
    requires prefix != "" && prefix[0] == '['
    ensures Count(head + (prefix + e), '[') > Count(e, '[')
  {
    assert prefix == ['['] + prefix[1..];
    assert multiset(head + (prefix + e)) == multiset(head) + multiset(prefix) + multiset(e);
  }

  /**
   What the text before the stamp must be like: a marker in it is one of this doc-id, or there is none,
   not even an open one.
   */
  ghost predicate Unobstructed(pre: string, id: string) {
    match SearchFrom(pre, 0)
    case Some(group) => DecodeDocId(group) == id
    case None => forall p :: 0 <= p < |pre| ==> !OpenAt(pre, p)
  }

  lemma OpenHasPrefix(pre: string, p: nat)
    requires OpenAt(pre, p)
    ensures PrefixAt(pre, p)
  {
  }

  /** Before a point with neither matches nor open prefixes the stamp brings none. */
  lemma NoneBefore(pre: string, rest: string, q: nat)
    requires q <= |pre| && rest != "" && rest[0] == '['
    requires forall k :: 0 <= k < q ==> MatchAt(pre, k).None? && !OpenAt(pre, k)
    ensures forall k :: 0 <= k < q ==> MatchAt(pre + rest, k).None?
  {
    forall k | 0 <= k < q
      ensures MatchAt(pre + rest, k).None?
    {
      if MatchAt(pre + rest, k).Some? { MatchRunsOn(pre, rest, k); }
    }
  }

  lemma FoundWithin(pre: string, rest: string)
    requires rest != "" && rest[0] == '[' && SearchFrom(pre, 0).Some?
    ensures SearchFrom(pre + rest, 0) == SearchFrom(pre, 0)
  {
    hide MatchAt, SearchFrom, OpenAt;
    var q := FirstMatch(pre, 0);
    MatchWithin(pre, rest, q);
    NoneBefore(pre, rest, q);
    SearchFinds(pre + rest, 0, q);
  }

  lemma FoundOpen(pre: string, id: string, post: string, p: nat)
    requires SearchFrom(pre, 0).None? && p < |pre| && OpenAt(pre, p)
    ensures var found := SearchFrom(pre + Marker(id) + post, 0);
            found.Some? && DecodeDocId(found.value) != id
  {
    hide MatchAt, SearchFrom, OpenAt, EncodeDocId, DecodeDocId;
    var rest := Marker(id) + post;
    var s := pre + rest;
    assert s == pre + Marker(id) + post;
    assert rest != "" && rest[0] == '[';
    hide Marker;
    OpenGroup(pre, id, post, p);
    var first := FirstMatch(s, 0);
    var _ := FirstMatch(pre, 0);
    MatchRunsOn(pre, rest, first);
    OpenGroup(pre, id, post, first);
    OpenHasPrefix(pre, first);
    OpenIsAnotherId(pre, id, first);
  }

  lemma FoundStamp(pre: string, id: string, post: string)
    requires id != "" && SearchFrom(pre, 0).None? && forall p :: 0 <= p < |pre| ==> !OpenAt(pre, p)
    ensures SearchFrom(pre + Marker(id) + post, 0) == Some(EncodeDocId(id))
  {
    hide MatchAt, SearchFrom, OpenAt, EncodeDocId;
    var rest := Marker(id) + post;
    assert pre + rest == pre + Marker(id) + post;
    assert rest != "" && rest[0] == '[';
    hide Marker;
    MarkerMatches(pre, id, post);
    var _ := FirstMatch(pre, 0);
    NoneBefore(pre, rest, |pre|);
    SearchFinds(pre + rest, 0, |pre|);
  }

  /** What the search finds in a stamped text is decided by the text before the stamp. */
  lemma FoundExactlyWhen(pre: string, id: string, post: string)
    requires id != ""
    ensures var found := SearchFrom(pre + Marker(id) + post, 0);
            found.Some? && (DecodeDocId(found.value) == id <==> Unobstructed(pre, id))
  {
    if SearchFrom(pre, 0).Some? {
      var rest := Marker(id) + post;
      assert pre + rest == pre + Marker(id) + post;
      assert rest != "" && rest[0] == '[';
      hide Marker, SearchFrom, DecodeDocId, EncodeDocId;
      FoundWithin(pre, rest);
    } else if p :| 0 <= p < |pre| && OpenAt(pre, p) {
      hide Marker, SearchFrom, DecodeDocId, EncodeDocId, OpenAt;
      FoundOpen(pre, id, post, p);
    } else {
      hide Marker, SearchFrom, DecodeDocId, EncodeDocId, OpenAt;
      FoundStamp(pre, id, post);
      DecodeUndoesEncode(id);
    }
  }

  /**
   The round trip, exactly: a stamped doc-id is recovered if and only if it is not empty, is valid, and
   the text before its stamp holds no marker, not even one left open, or one of the same doc-id first.
   */
  lemma RecoveredExactlyWhen(id: string, lines: seq<string>, validIds: set<string>)
    ensures DocIdFromContent(Before(lines) + Marker(id) + Behind(lines), validIds) == Some(id)
            <==> id != "" && id in validIds && Unobstructed(Before(lines), id)
  {
    var content := Before(lines) + Marker(id) + Behind(lines);
    if id == "" {
      EmptyIdIsNeverRecovered(content, validIds);
    } else {
      FoundExactlyWhen(Before(lines), id, Behind(lines));
    }
    hide Before, Behind, SearchFrom, DecodeDocId, Marker;
  }
}
