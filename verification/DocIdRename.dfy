/** Renaming corpus files whose names carry personal data, without losing or overwriting any. */
module DocIdRename {
  import opened FreshNames
  import opened Ordering

  /** `scrub` is `scrub_doc_id`; `digest` the short hash of a doc-id. */
  datatype Policy = Policy(scrub: string -> (string, bool), digest: string -> string)

  function Base(s: string): string {
    s[..LastDot(s)]
  }

  /** The extension with its dot. */
  function DotExt(s: string): string {
    s[LastDot(s)..]
  }

  /** The names tried in turn: the scrubbed name, then with the digest, then with digest and number. */
  function Candidate(scrubbed: string, digest: string, k: nat): string {
    if k == 0 then scrubbed
    else if k == 1 then Base(scrubbed) + "-" + digest + DotExt(scrubbed)
    else Base(scrubbed) + "-" + digest + "-" + Decimal(k - 1) + DotExt(scrubbed)
  }

  function Candidates(scrubbed: string, digest: string): nat -> string {
    (k: nat) => Candidate(scrubbed, digest, k)
  }

  lemma TwoCandidates(scrubbed: string, digest: string, i: nat, j: nat)
    requires i < j
    ensures Candidate(scrubbed, digest, i) != Candidate(scrubbed, digest, j)
  {
    assert |scrubbed| == |Base(scrubbed)| + |DotExt(scrubbed)|;
    if j >= 2 {
      DecimalIsDigits(j - 1);
      if i >= 2 && Candidate(scrubbed, digest, i) == Candidate(scrubbed, digest, j) {
        BetweenIsInjective(Base(scrubbed) + "-" + digest + "-", DotExt(scrubbed), Decimal(i - 1), Decimal(j - 1));
        DecimalIsInjective(i - 1, j - 1);
      }
    }
  }

  lemma CandidatesAreDistinct(scrubbed: string, digest: string)
    ensures Distinct(Candidates(scrubbed, digest))
  {
    forall i, j | 0 <= i < j
      ensures Candidates(scrubbed, digest)(i) != Candidates(scrubbed, digest)(j)
    {
      TwoCandidates(scrubbed, digest, i, j);
    }
  }

  /** Where a file goes: its scrubbed name, or the first candidate free if another file has that. */
  ghost function Target(p: Policy, id: string, used: set<string>): string {
    var scrubbed := p.scrub(id).0;
    CandidatesAreDistinct(scrubbed, p.digest(id));
    if scrubbed == id then id
    else Candidate(scrubbed, p.digest(id), FirstFree(Candidates(scrubbed, p.digest(id)), used))
  }

  /** The corpus after one turn of the loop. */
  ghost function Turn(p: Policy, files: map<string, string>, id: string): map<string, string>
    requires id in files
  {
    if !p.scrub(id).1 then files
    else (files - {id})[Target(p, id, files.Keys) := files[id]]
  }

  /** A target other than the file's own name is not in use. */
  lemma TargetIsFree(p: Policy, id: string, used: set<string>)
    ensures Target(p, id, used) == id || Target(p, id, used) !in used
  {
    CandidatesAreDistinct(p.scrub(id).0, p.digest(id));
  }

  /** `i` is where the last dot of `s` stands, or the end of `s` if it has none. */
  ghost predicate ExtensionAt(s: string, i: nat) {
    i <= |s| && (i < |s| ==> s[i] == '.' && '.' !in s[i + 1..]) && (i == |s| ==> '.' !in s)
  }

  /** The digest in front of the extension, and from the second try on a number behind it. */
  function WithDigest(s: string, i: nat, digest: string, n: nat): string
    requires i <= |s|
  {
    s[..i] + "-" + digest + (if n == 0 then "" else "-" + Decimal(n)) + s[i..]
  }

  /**
   A file keeps its name when scrubbing does, and gets the scrubbed one if nobody else has it; otherwise the
   first one with its digest, and then with digest and number, that is free.
   */
  lemma TargetExactly(p: Policy, id: string, used: set<string>)
    ensures var s := p.scrub(id).0;
      && (s == id ==> Target(p, id, used) == id)
      && (s != id && s !in used ==> Target(p, id, used) == s)
      && (s != id && s in used ==> exists i: nat, n: nat ::
            && ExtensionAt(s, i)
            && Target(p, id, used) == WithDigest(s, i, p.digest(id), n)
            && Target(p, id, used) !in used
            && forall m: nat :: m < n ==> WithDigest(s, i, p.digest(id), m) in used)
  {
    var s, d := p.scrub(id).0, p.digest(id);
    CandidatesAreDistinct(s, d);
    var f := FirstFree(Candidates(s, d), used);
    if s != id {
      assert s !in used ==> Candidates(s, d)(0) !in used;
      if s in used {
        var i := LastDot(s);
        assert f > 0;
        CandidateIs(s, d, f - 1);
        forall m: nat | m < f - 1
          ensures WithDigest(s, i, d, m) in used
        {
          CandidateIs(s, d, m);
          assert Candidates(s, d)(m + 1) in used;
        }
        assert ExtensionAt(s, i);
      }
    }
  }

  lemma CandidateIs(s: string, d: string, n: nat)
    ensures Candidate(s, d, n + 1) == WithDigest(s, LastDot(s), d, n)
  {
    var i := LastDot(s);
    if n == 0 {
      assert s[..i] + "-" + d + "" + s[i..] == s[..i] + "-" + d + s[i..];
    } else {
      assert s[..i] + "-" + d + ("-" + Decimal(n)) == s[..i] + "-" + d + "-" + Decimal(n);
    }
  }

  // ---------- the run as a whole ----------

  /** Where each original file is after some turns. */
  ghost predicate Tracks(was: map<string, string>, files: map<string, string>, place: map<string, string>) {
    && place.Keys == was.Keys
    && (forall id :: id in was ==> place[id] in files && files[place[id]] == was[id])
    && (forall a, b :: a in was && b in was && a != b ==> place[a] != place[b])
    && (forall f :: f in files ==> exists id :: id in was && place[id] == f)
  }

  lemma TurnTracks(p: Policy, was: map<string, string>, files: map<string, string>, place: map<string, string>,
        id: string)
    requires Tracks(was, files, place) && id in was && place[id] == id && p.scrub(id).1
    ensures Tracks(was, Turn(p, files, id), place[id := Target(p, id, files.Keys)])
  {
    var t := Target(p, id, files.Keys);
    TargetIsFree(p, id, files.Keys);
    var next, moved := Turn(p, files, id), place[id := t];
    hide Target;
    forall a, b | a in was && b in was && a != b
      ensures moved[a] != moved[b]
    {
      assert place[a] != place[b];
    }
    forall f | f in next
      ensures exists o :: o in was && moved[o] == f
    {
      if f == t {
        assert moved[id] == f;
      } else {
        var o :| o in was && place[o] == f;
        assert moved[o] == f;
      }
    }
  }

  /** The corpora between turns, one turn for each id in order. */
  ghost predicate IsRun(p: Policy, was: map<string, string>, ids: seq<string>, stages: seq<map<string, string>>) {
    && |stages| == |ids| + 1 && stages[0] == was
    && forall i :: 0 <= i < |ids| ==> ids[i] in stages[i] && stages[i + 1] == Turn(p, stages[i], ids[i])
  }

  ghost function Changed(p: Policy, ids: set<string>): set<string> {
    set id | id in ids && p.scrub(id).1
  }

  /** Where every file ends up: its entry in the returned map, or its own name. */
  ghost function NewNames(ids: set<string>, renames: map<string, string>): map<string, string> {
    map id | id in ids :: if id in renames then renames[id] else id
  }

  lemma NothingMoved(files: map<string, string>)
    ensures Tracks(files, files, NewNames(files.Keys, map[]))
  {
    var place := NewNames(files.Keys, map[]);
    forall f | f in files
      ensures exists id :: id in files && place[id] == f
    {
      assert place[f] == f;
    }
  }

  lemma NamesGrow(ids: set<string>, renames: map<string, string>, id: string, newId: string)
    requires id in ids
    ensures NewNames(ids, renames[id := newId]) == NewNames(ids, renames)[id := newId]
  {
  }

  lemma TurnMoves(p: Policy, files: map<string, string>, id: string, newId: string)
    requires id in files && p.scrub(id).1 && newId == Target(p, id, files.Keys)
    ensures Turn(p, files, id) == (files - {id})[newId := files[id]]
    ensures Turn(p, files, id).Keys == files.Keys - {id} + {newId}
  {
    hide Target;
  }

  lemma TurnStays(p: Policy, files: map<string, string>, id: string)
    requires id in files && !p.scrub(id).1
    ensures Turn(p, files, id) == files
  {
    hide Target;
  }

  /** A file whose turn has not come is where it was. */
  lemma StillInPlace(p: Policy, was: map<string, string>, files: map<string, string>, renames: map<string, string>,
        ids: seq<string>, i: nat)
    requires i < |ids| && Elements(ids) == was.Keys && (forall j, k :: 0 <= j < k < |ids| ==> ids[j] != ids[k])
    requires renames.Keys == Changed(p, Elements(ids[..i]))
    requires Tracks(was, files, NewNames(was.Keys, renames))
    ensures ids[i] in was && ids[i] !in renames && ids[i] in files && NewNames(was.Keys, renames)[ids[i]] == ids[i]
  {
    assert ids[i] in Elements(ids);
    assert ids[i] !in ids[..i];
  }

  lemma ChangedGrows(p: Policy, ids: seq<string>, i: nat)
    requires i < |ids|
    ensures Changed(p, Elements(ids[..i + 1]))
            == Changed(p, Elements(ids[..i])) + if p.scrub(ids[i]).1 then {ids[i]} else {}
  {
    assert ids[..i + 1] == ids[..i] + [ids[i]];
    assert Elements(ids[..i + 1]) == Elements(ids[..i]) + {ids[i]};
  }

  lemma TracksStep(p: Policy, was: map<string, string>, files: map<string, string>, renames: map<string, string>,
        id: string)
    requires Tracks(was, files, NewNames(was.Keys, renames))
    requires id in was && id in files && NewNames(was.Keys, renames)[id] == id
    ensures Tracks(was, Turn(p, files, id), NewNames(was.Keys, RenamesAfter(p, files, renames, id)))
  {
    hide Target, Tracks, NewNames;
    if p.scrub(id).1 {
      TurnTracks(p, was, files, NewNames(was.Keys, renames), id);
      NamesGrow(was.Keys, renames, id, Target(p, id, files.Keys));
    } else {
      TurnStays(p, files, id);
    }
  }

  lemma RunGrows(p: Policy, was: map<string, string>, ids: seq<string>, stages: seq<map<string, string>>, i: nat)
    requires i < |ids| && IsRun(p, was, ids[..i], stages) && ids[i] in stages[i]
    ensures IsRun(p, was, ids[..i + 1], stages + [Turn(p, stages[i], ids[i])])
  {
    hide Turn;
  }

  /** Each renamed file went to its target among the names in use at its turn. */
  ghost predicate RecordsTargets(p: Policy, ids: seq<string>, n: nat, renames: map<string, string>,
                                stages: seq<map<string, string>>)
  {
    n <= |ids| && n < |stages|
    && forall k :: 0 <= k < n && ids[k] in renames ==> renames[ids[k]] == Target(p, ids[k], stages[k].Keys)
  }

  /** The state of the run after `i` turns. */
  ghost predicate Progress(p: Policy, was: map<string, string>, ids: seq<string>, i: nat,
                           files: map<string, string>, renames: map<string, string>, stages: seq<map<string, string>>)
  {
    && i <= |ids| && Elements(ids) == was.Keys
    && (forall j, k :: 0 <= j < k < |ids| ==> ids[j] != ids[k])
    && IsRun(p, was, ids[..i], stages) && files == stages[i]
    && renames.Keys == Changed(p, Elements(ids[..i]))
    && RecordsTargets(p, ids, i, renames, stages)
    && Tracks(was, files, NewNames(was.Keys, renames))
  }

  lemma ProgressStarts(p: Policy, was: map<string, string>, ids: seq<string>)
    requires Elements(ids) == was.Keys && Ascending(ids)
    ensures Progress(p, was, ids, 0, was, map[], [was])
  {
    AscendingIsDistinct(ids);
    NothingMoved(was);
  }

  lemma ProgressStep(p: Policy, was: map<string, string>, ids: seq<string>, i: nat,
                     files: map<string, string>, renames: map<string, string>, stages: seq<map<string, string>>)
    requires i < |ids| && Progress(p, was, ids, i, files, renames, stages)
    ensures ids[i] in files
    ensures var id := ids[i];
      Progress(p, was, ids, i + 1, Turn(p, files, id), RenamesAfter(p, files, renames, id),
               stages + [Turn(p, files, id)])
  {
    hide *;
    var id := ids[i];
    ProgressMeans(p, was, ids, i, files, renames, stages);
    StillInPlace(p, was, files, renames, ids, i);
    TargetsGrow(p, ids, i, files, renames, stages);
    TracksStep(p, was, files, renames, id);
    ChangedGrows(p, ids, i);
    RunGrows(p, was, ids, stages, i);
    RenamesStep(p, files, renames, id);
    ProgressMeans(p, was, ids, i + 1, Turn(p, files, id), RenamesAfter(p, files, renames, id),
                  stages + [Turn(p, files, id)]);
  }

  /** `Progress`, conjunct by conjunct. */
  lemma ProgressMeans(p: Policy, was: map<string, string>, ids: seq<string>, i: nat,
                      files: map<string, string>, renames: map<string, string>, stages: seq<map<string, string>>)
    requires i <= |ids|
    ensures Progress(p, was, ids, i, files, renames, stages) ==> |stages| == i + 1
    ensures Progress(p, was, ids, i, files, renames, stages) <==>
      (&& Elements(ids) == was.Keys
       && (forall j, k :: 0 <= j < k < |ids| ==> ids[j] != ids[k])
       && IsRun(p, was, ids[..i], stages) && i < |stages| && files == stages[i]
       && renames.Keys == Changed(p, Elements(ids[..i]))
       && RecordsTargets(p, ids, i, renames, stages)
       && Tracks(was, files, NewNames(was.Keys, renames)))
  {
    assert IsRun(p, was, ids[..i], stages) ==> |stages| == i + 1;
    hide Elements, IsRun, Changed, RecordsTargets, Tracks, NewNames;
  }

  /** The returned map after the turn of `id`. */
  ghost function RenamesAfter(p: Policy, files: map<string, string>, renames: map<string, string>, id: string)
    : map<string, string>
  {
    if p.scrub(id).1 then renames[id := Target(p, id, files.Keys)] else renames
  }

  lemma RenamesStep(p: Policy, files: map<string, string>, renames: map<string, string>, id: string)
    ensures RenamesAfter(p, files, renames, id) ==
      if p.scrub(id).1 then renames[id := Target(p, id, files.Keys)] else renames
  {
  }

  lemma TargetsGrow(p: Policy, ids: seq<string>, i: nat, files: map<string, string>, renames: map<string, string>,
                    stages: seq<map<string, string>>)
    requires i < |ids| && |stages| == i + 1 && RecordsTargets(p, ids, i, renames, stages) && files == stages[i]
    requires forall j, k :: 0 <= j < k < |ids| ==> ids[j] != ids[k]
    requires ids[i] !in renames
    requires ids[i] in files
    ensures RecordsTargets(p, ids, i + 1, RenamesAfter(p, files, renames, ids[i]), stages + [Turn(p, files, ids[i])])
  {
    hide Target, Turn;
  }

  lemma ProgressEnds(p: Policy, was: map<string, string>, ids: seq<string>,
                     files: map<string, string>, renames: map<string, string>, stages: seq<map<string, string>>)
    requires Progress(p, was, ids, |ids|, files, renames, stages)
    ensures IsRun(p, was, ids, stages) && files == stages[|ids|]
    ensures renames.Keys == Changed(p, was.Keys)
    ensures RecordsTargets(p, ids, |ids|, renames, stages)
    ensures Tracks(was, files, NewNames(was.Keys, renames))
  {
    assert ids[..|ids|] == ids;
    hide Target, Turn, Tracks, Changed, NewNames;
  }

  class Corpus {
    /** Doc-id to file content. */
    var files: map<string, string>

    constructor (files: map<string, string>)
      ensures this.files == files
    {
      this.files := files;
    }

    /**
     * `rename_scrubbed_doc_ids`. Every file keeps its content under exactly one name,
     * files are renamed exactly where scrubbing changes the doc-id, and each to a name
     * that no other file has at that moment; `stages` are the corpora between turns.
     */
    method RenameScrubbedDocIds(p: Policy)
      returns (renames: map<string, string>, ghost ids: seq<string>, ghost stages: seq<map<string, string>>)
      modifies this
      ensures Ascending(ids) && Elements(ids) == old(files).Keys
      ensures IsRun(p, old(files), ids, stages) && files == stages[|ids|]
      ensures renames.Keys == Changed(p, old(files).Keys)
      ensures RecordsTargets(p, ids, |ids|, renames, stages)
      ensures Tracks(old(files), files, NewNames(old(files).Keys, renames))
    {
      var order := SortNames(files.Keys);
      ghost var was := files;
      var used := files.Keys;
      renames, ids, stages := map[], order, [files];
      ProgressStarts(p, was, ids);
      hide *;
      for i := 0 to |order|
        invariant used == files.Keys && Progress(p, was, ids, i, files, renames, stages)
      {
        var id := order[i];
        ProgressStep(p, was, ids, i, files, renames, stages);
        RenamesStep(p, files, renames, id);
        if p.scrub(id).1 {
          var newId := FindTarget(p, id, used);
          TurnMoves(p, files, id, newId);
          used := used - {id} + {newId};
          files := (files - {id})[newId := files[id]];
          renames := renames[id := newId];
        } else {
          TurnStays(p, files, id);
        }
        stages := stages + [files];
      }
      ProgressEnds(p, was, ids, files, renames, stages);
    }
  }

  /** The choice of a new name within a turn. */
  method FindTarget(p: Policy, id: string, used: set<string>) returns (newId: string)
    ensures newId == Target(p, id, used)
  {
    newId := p.scrub(id).0;
    var digest := p.digest(id);
    CandidatesAreDistinct(newId, digest);
    if newId in used && newId != id {
      var k := FindFree(Candidates(newId, digest), used);
      newId := Candidate(newId, digest, k);
    } else if newId != id {
      FirstFreeIsUnique(Candidates(newId, digest), used, 0, FirstFree(Candidates(newId, digest), used));
    }
  }
}
