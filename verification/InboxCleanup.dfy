/** The inbox cleanup: which files an applied run moves, and that it loses none of them. */
module InboxCleanup {
  import opened FreshNames
  import opened Ordering
  import opened Prelude

  const SIDECAR_SUFFIX: string := ".reason.json"

  datatype Reason = Keep | IngestedResolved | Ingested | ExpiredHandoff | AckedHandoff | NothingIngestible
                  | UnrecognizedKind | AgentMismatchQuarantine

  /** One vault's inbox directory with its archive and quarantine: file name to content. */
  datatype Vault = Vault(inbox: map<string, string>, archive: map<string, string>, quarantine: map<string, string>)

  /**
   What is fixed for one vault of a run: the verdict on a file, from its name and content, and the
   text of a quarantine sidecar.  Both look at the principal of the vault's own directory.
   */
  datatype Rules = Rules(classify: (string, string) -> Reason, payload: (string, string) -> string)

  /** `path.suffix` starts at the last dot, unless that is the first or the last character. */
  function SuffixAt(name: string): (i: nat)
    ensures i <= |name|
    ensures i < |name| ==> 0 < i < |name| - 1 && name[i] == '.' && forall j :: i < j < |name| ==> name[j] != '.'
    ensures i == |name| ==> forall d :: 0 < d < |name| - 1 && name[d] == '.' ==> '.' in name[d + 1..]
  {
    var i := LastDot(name);
    if 0 < i < |name| - 1 then i else |name|
  }

  function Stem(name: string): string {
    name[..SuffixAt(name)]
  }

  function Suffix(name: string): string {
    name[SuffixAt(name)..]
  }

  /** The name a file gets in a directory that already holds `used`. */
  ghost function FreshName(name: string, used: set<string>): string {
    NumberedIsDistinct(Stem(name), Suffix(name));
    Numbered(Stem(name), Suffix(name), FirstFree(NumberedNames(Stem(name), Suffix(name)), used))
  }

  /**
   The file's own name if that is free, otherwise the first free one with a number from 1 up, in decimal,
   in front of the suffix.
   */
  lemma FreshNameIsFree(name: string, used: set<string>)
    ensures FreshName(name, used) !in used
    ensures name !in used ==> FreshName(name, used) == name
    ensures name in used ==>
      exists k :: k > 0 && FreshName(name, used) == InFront(name, k)
                  && forall j :: 0 < j < k ==> InFront(name, j) in used
  {
    NumberedIsDistinct(Stem(name), Suffix(name));
    var names := NumberedNames(Stem(name), Suffix(name));
    var f := FirstFree(names, used);
    assert names(0) == Numbered(Stem(name), Suffix(name), 0) == name;
    assert names(f) == FreshName(name, used) && names(f) !in used;
    if name in used {
      assert f > 0 && FreshName(name, used) == InFront(name, f);
      forall j | 0 < j < f
        ensures InFront(name, j) in used
      {
        assert names(j) == InFront(name, j) && names(j) in used;
      }
    }
    if name !in used {
      FirstFreeIsUnique(names, used, 0, f);
    }
  }

  function InFront(name: string, k: int): string
    requires k > 0
  {
    name[..SuffixAt(name)] + "." + Decimal(k) + name[SuffixAt(name)..]
  }

  /** The loop `while target.exists()`. */
  method SearchName(name: string, used: set<string>) returns (target: string)
    ensures target == FreshName(name, used)
  {
    NumberedIsDistinct(Stem(name), Suffix(name));
    var k := FindFree(NumberedNames(Stem(name), Suffix(name)), used);
    target := Numbered(Stem(name), Suffix(name), k);
  }

  // ---------- single moves ----------

  ghost function ArchiveStep(v: Vault, name: string): Vault
    requires name in v.inbox
  {
    v.(inbox := v.inbox - {name}, archive := v.archive[FreshName(name, v.archive.Keys) := v.inbox[name]])
  }

  ghost function Sidecar(v: Vault, name: string): string {
    FreshName(name, v.quarantine.Keys) + SIDECAR_SUFFIX
  }

  /** The move to quarantine, then the sidecar beside it, written whether or not that name is taken. */
  ghost function QuarantineStep(v: Vault, name: string, payload: string): Vault
    requires name in v.inbox
  {
    v.(inbox := v.inbox - {name},
       quarantine := v.quarantine[FreshName(name, v.quarantine.Keys) := v.inbox[name]][Sidecar(v, name) := payload])
  }

  /** The turn of one file: moved where its verdict sends it, or left. */
  ghost function Turn(r: Rules, v: Vault, name: string): Vault {
    if name !in v.inbox then v
    else match r.classify(name, v.inbox[name])
    case Keep => v
    case AgentMismatchQuarantine => QuarantineStep(v, name, r.payload(name, v.inbox[name]))
    case _ => ArchiveStep(v, name)
  }

  predicate IsJson(name: string) {
    |name| >= 5 && name[|name| - 5..] == ".json"
  }

  lemma IsJsonExactlyWhen(name: string)
    ensures IsJson(name) <==> exists stem: string :: name == stem + ".json"
  {
    if IsJson(name) { assert name == name[..|name| - 5] + ".json"; }
  }

  function JsonNames(inbox: map<string, string>): set<string> {
    set n | n in inbox && IsJson(n)
  }

  /** The files a run looks at: `sorted(inbox.glob("*.json"))`. */
  ghost predicate Candidates(v: Vault, names: seq<string>) {
    Ascending(names) && Elements(names) == JsonNames(v.inbox)
  }

  // ---------- the run over one vault ----------

  /** The vault after the first `n` turns. */
  ghost function After(r: Rules, v: Vault, names: seq<string>, n: nat): Vault
    requires n <= |names|
  {
    if n == 0 then v else Turn(r, After(r, v, names, n - 1), names[n - 1])
  }

  lemma TurnInbox(r: Rules, v: Vault, name: string)
    ensures forall m :: m in Turn(r, v, name).inbox ==> m in v.inbox && Turn(r, v, name).inbox[m] == v.inbox[m]
    ensures forall m :: m in v.inbox && m != name ==> m in Turn(r, v, name).inbox
    ensures name in v.inbox && name in Turn(r, v, name).inbox ==> r.classify(name, v.inbox[name]) == Keep
  {
  }

  /** Turns only take files out of the inbox, each its own. */
  lemma {:induction false} AfterInbox(r: Rules, v: Vault, names: seq<string>, n: nat)
    requires n <= |names|
    ensures forall m :: m in After(r, v, names, n).inbox ==>
              m in v.inbox && After(r, v, names, n).inbox[m] == v.inbox[m]
    ensures forall m :: m in v.inbox && m !in names[..n] ==> m in After(r, v, names, n).inbox
  {
    if n > 0 {
      AfterInbox(r, v, names, n - 1);
      TurnInbox(r, After(r, v, names, n - 1), names[n - 1]);
      assert names[..n] == names[..n - 1] + [names[n - 1]];
      hide Turn;
    }
  }

  datatype Entry = Entry(file: string, reason: Reason)
  datatype Report = Report(total: nat, counts: map<Reason, nat>, moves: seq<Entry>)

  /** The files a run is going to move, in order: the dry run's plan. */
  ghost function Plan(r: Rules, v: Vault, names: seq<string>): seq<Entry>
    requires forall i :: 0 <= i < |names| ==> names[i] in v.inbox
  {
    if names == [] then []
    else
      var n := |names| - 1;
      var reason := r.classify(names[n], v.inbox[names[n]]);
      Plan(r, v, names[..n]) + if reason == Keep then [] else [Entry(names[n], reason)]
  }

  /** How many of the files get a verdict. */
  ghost function CountOf(r: Rules, v: Vault, names: seq<string>, reason: Reason): nat
    requires forall i :: 0 <= i < |names| ==> names[i] in v.inbox
  {
    if names == [] then 0
    else
      var n := |names| - 1;
      CountOf(r, v, names[..n], reason) + if r.classify(names[n], v.inbox[names[n]]) == reason then 1 else 0
  }

  const ALL_REASONS: set<Reason> := {Keep, IngestedResolved, Ingested, ExpiredHandoff, AckedHandoff, NothingIngestible,
                                     UnrecognizedKind, AgentMismatchQuarantine}

  /** A vault's files on disk. */
  class InboxDir {
    var inbox: map<string, string>
    var archive: map<string, string>
    var quarantine: map<string, string>

    ghost function Snapshot(): Vault
      reads this
    {
      Vault(inbox, archive, quarantine)
    }

    constructor (inbox: map<string, string>, archive: map<string, string>, quarantine: map<string, string>)
      ensures Snapshot() == Vault(inbox, archive, quarantine)
    {
      this.inbox, this.archive, this.quarantine := inbox, archive, quarantine;
    }

    /** `archive_file` */
    method ArchiveFile(name: string) returns (target: string)
      requires name in inbox
      modifies this
      ensures target == FreshName(name, old(archive).Keys)
      ensures target !in old(archive) && (name !in old(archive) ==> target == name)
      ensures inbox == old(inbox) - {name} && archive == old(archive)[target := old(inbox)[name]]
      ensures quarantine == old(quarantine)
      ensures Snapshot() == ArchiveStep(old(Snapshot()), name)
    {
      target := SearchName(name, archive.Keys);
      FreshNameIsFree(name, archive.Keys);
      archive := archive[target := inbox[name]];
      inbox := inbox - {name};
    }

    /** `quarantine_file` */
    method QuarantineFile(name: string, payload: string) returns (target: string)
      requires name in inbox
      modifies this
      ensures target == FreshName(name, old(quarantine).Keys)
      ensures target !in old(quarantine) && (name !in old(quarantine) ==> target == name)
      ensures inbox == old(inbox) - {name} && archive == old(archive)
      ensures quarantine == old(quarantine)[target := old(inbox)[name]][target + ".reason.json" := payload]
      ensures Snapshot() == QuarantineStep(old(Snapshot()), name, payload)
    {
      target := SearchName(name, quarantine.Keys);
      FreshNameIsFree(name, quarantine.Keys);
      quarantine := quarantine[target := inbox[name]];
      inbox := inbox - {name};
      quarantine := quarantine[target + SIDECAR_SUFFIX := payload];
    }

    /** One file of the run: its verdict, and if `apply` is set the move. */
    method CleanFile(r: Rules, name: string, apply: bool) returns (reason: Reason)
      requires name in inbox
      modifies this
      ensures reason == r.classify(name, old(inbox)[name])
      ensures Snapshot() == if apply then Turn(r, old(Snapshot()), name) else old(Snapshot())
      ensures !apply || reason == Keep ==> Snapshot() == old(Snapshot())
      ensures apply && reason != Keep ==> inbox == old(inbox) - {name}
      ensures apply && reason == AgentMismatchQuarantine ==> archive == old(archive) && exists target ::
        target !in old(quarantine) && quarantine ==
          old(quarantine)[target := old(inbox)[name]][target + ".reason.json" := r.payload(name, old(inbox)[name])]
      ensures apply && reason != Keep && reason != AgentMismatchQuarantine ==>
        quarantine == old(quarantine) && exists target ::
          target !in old(archive) && archive == old(archive)[target := old(inbox)[name]]
    {
      reason := r.classify(name, inbox[name]);
      if apply && reason != Keep {
        if reason == AgentMismatchQuarantine {
          var _ := QuarantineFile(name, r.payload(name, inbox[name]));
        } else {
          var _ := ArchiveFile(name);
        }
      }
    }

    /** The body of `run_cleanup` for one vault. */
    method Clean(r: Rules, apply: bool) returns (report: Report, ghost names: seq<string>)
      modifies this
      ensures Candidates(old(Snapshot()), names) && InInbox(old(Snapshot()), names)
      ensures forall n :: n in names <==> n in old(inbox) && exists stem: string :: n == stem + ".json"
      ensures Snapshot() == if apply then After(r, old(Snapshot()), names, |names|) else old(Snapshot())
      ensures report.total == |names| && report.moves == Plan(r, old(Snapshot()), names)
      ensures report.counts.Keys == ALL_REASONS
      ensures forall reason :: reason in ALL_REASONS ==>
                report.counts[reason] == CountOf(r, old(Snapshot()), names, reason)
    {
      ghost var was := Snapshot();
      var list := SortNames(JsonNames(inbox));
      names := list;
      CandidatesInInbox(was, names);
      AreJson(was, names);
      report := Report(0, map reason | reason in ALL_REASONS :: 0, []);
      NothingTallied(r, was, names);
      assert names[..|names|] == names;
      hide *;
      for i := 0 to |list|
        invariant Snapshot() == if apply then After(r, was, names, i) else was
        invariant Tallied(r, was, names[..i], report)
      {
        TurnsGrow(r, was, names, i);
        TallyGrows(r, was, names, i, report);
        var name := list[i];
        var reason := CleanFile(r, name, apply);
        report := Tally(report, name, reason);
      }
      TalliedMeans(r, was, names, report);
    }
  }

  /** The counters and the list of moves after one more file. */
  function Tally(report: Report, name: string, reason: Reason): Report {
    var counts := if reason in report.counts then report.counts[reason := report.counts[reason] + 1] else report.counts;
    Report(report.total + 1, counts, report.moves + if reason == Keep then [] else [Entry(name, reason)])
  }

  ghost predicate Tallied(r: Rules, v: Vault, names: seq<string>, report: Report)
  {
    && InInbox(v, names)
    && report.total == |names| && report.moves == Plan(r, v, names)
    && report.counts.Keys == ALL_REASONS
    && forall reason :: reason in ALL_REASONS ==> report.counts[reason] == CountOf(r, v, names, reason)
  }

  lemma NothingTallied(r: Rules, v: Vault, names: seq<string>)
    ensures names[..0] == [] && Tallied(r, v, names[..0], Report(0, map reason | reason in ALL_REASONS :: 0, []))
  {
  }

  lemma TallyGrows(r: Rules, v: Vault, names: seq<string>, i: nat, report: Report)
    requires InInbox(v, names) && i < |names| && Tallied(r, v, names[..i], report)
    ensures Tallied(r, v, names[..i + 1], Tally(report, names[i], r.classify(names[i], v.inbox[names[i]])))
  {
    assert names[..i + 1][..i] == names[..i];
    assert names[..i + 1][i] == names[i];
    AllReasons(r.classify(names[i], v.inbox[names[i]]));
  }

  lemma AllReasons(reason: Reason)
    ensures reason in ALL_REASONS
  {
  }

  lemma TalliedMeans(r: Rules, v: Vault, names: seq<string>, report: Report)
    requires Tallied(r, v, names, report)
    ensures report.total == |names| && report.moves == Plan(r, v, names)
    ensures report.counts.Keys == ALL_REASONS
    ensures forall reason :: reason in ALL_REASONS ==> report.counts[reason] == CountOf(r, v, names, reason)
  {
  }

  ghost predicate InInbox(v: Vault, names: seq<string>) {
    && (forall i :: 0 <= i < |names| ==> names[i] in v.inbox)
    && forall i, k :: 0 <= i < k < |names| ==> names[i] != names[k]
  }

  lemma CandidatesInInbox(v: Vault, names: seq<string>)
    requires Candidates(v, names)
    ensures InInbox(v, names) && forall n :: n in names <==> n in v.inbox && IsJson(n)
  {
    AscendingIsDistinct(names);
    forall n
      ensures n in names <==> n in v.inbox && IsJson(n)
    {
      assert n in names <==> n in Elements(names);
    }
  }

  lemma AreJson(v: Vault, names: seq<string>)
    requires forall n :: n in names <==> n in v.inbox && IsJson(n)
    ensures forall n :: n in names <==> n in v.inbox && exists stem: string :: n == stem + ".json"
  {
    forall n
      ensures n in names <==> n in v.inbox && exists stem: string :: n == stem + ".json"
    {
      IsJsonExactlyWhen(n);
    }
  }

  /** Turn `i` finds its file as it was at the start, whatever the turns before it moved. */
  lemma TurnsGrow(r: Rules, was: Vault, names: seq<string>, i: nat)
    requires InInbox(was, names) && i < |names|
    ensures names[i] in After(r, was, names, i).inbox && After(r, was, names, i).inbox[names[i]] == was.inbox[names[i]]
    ensures After(r, was, names, i + 1) == Turn(r, After(r, was, names, i), names[i])
  {
    AfterInbox(r, was, names, i);
    assert names[i] !in names[..i];
  }

  /** The total is what is kept plus what is moved, reason by reason. */
  lemma {:induction false} TotalIsSum(r: Rules, v: Vault, names: seq<string>)
    requires InInbox(v, names)
    ensures |names|
            == CountOf(r, v, names, Keep) + CountOf(r, v, names, IngestedResolved) + CountOf(r, v, names, Ingested)
               + CountOf(r, v, names, ExpiredHandoff) + CountOf(r, v, names, AckedHandoff)
               + CountOf(r, v, names, NothingIngestible)
      + CountOf(r, v, names, UnrecognizedKind) + CountOf(r, v, names, AgentMismatchQuarantine)
    ensures |Plan(r, v, names)| == |names| - CountOf(r, v, names, Keep)
  {
    if names != [] { TotalIsSum(r, v, names[..|names| - 1]); }
  }

  /** The plan lists the files that are not kept, each with its verdict, in the order of the run. */
  lemma {:induction false} PlanLists(r: Rules, v: Vault, names: seq<string>)
    requires InInbox(v, names) && Ascending(names)
    ensures forall e :: e in Plan(r, v, names) <==>
              e.file in names && e.reason == r.classify(e.file, v.inbox[e.file]) && e.reason != Keep
    ensures forall i, k :: 0 <= i < k < |Plan(r, v, names)| ==>
              StrLess(Plan(r, v, names)[i].file, Plan(r, v, names)[k].file)
  {
    if names != [] {
      var n := |names| - 1;
      var before := names[..n];
      PlanLists(r, v, before);
      assert names == before + [names[n]];
      forall i | 0 <= i < |Plan(r, v, before)|
        ensures StrLess(Plan(r, v, before)[i].file, names[n])
      {
        assert Plan(r, v, before)[i] in Plan(r, v, before);
      }
      hide StrLess;
    }
  }

  ghost function FilesWith(r: Rules, v: Vault, names: seq<string>, reason: Reason): set<string>
    requires forall i :: 0 <= i < |names| ==> names[i] in v.inbox
  {
    set n | n in names && r.classify(n, v.inbox[n]) == reason
  }

  /** Each counter is the number of files with that verdict. */
  lemma {:induction false} CountIsFiles(r: Rules, v: Vault, names: seq<string>, reason: Reason)
    requires InInbox(v, names)
    ensures CountOf(r, v, names, reason) == |FilesWith(r, v, names, reason)|
  {
    if names == [] {
      assert FilesWith(r, v, names, reason) == {};
    } else {
      CountIsFiles(r, v, names[..|names| - 1], reason);
      OneFileMore(r, v, names, reason);
      hide FilesWith;
    }
  }

  lemma LastApart(names: seq<string>)
    requires names != [] && forall i, k :: 0 <= i < k < |names| ==> names[i] != names[k]
    ensures var n := |names| - 1;
      names[n] !in names[..n] && forall m :: m in names <==> m in names[..n] || m == names[n]
  {
    assert names == names[..|names| - 1] + [names[|names| - 1]];
  }

  lemma OneFileMore(r: Rules, v: Vault, names: seq<string>, reason: Reason)
    requires InInbox(v, names) && names != []
    ensures var n := |names| - 1;
      |FilesWith(r, v, names, reason)|
      == |FilesWith(r, v, names[..n], reason)| + if r.classify(names[n], v.inbox[names[n]]) == reason then 1 else 0
  {
    var n := |names| - 1;
    var all, before, last := FilesWith(r, v, names, reason), FilesWith(r, v, names[..n], reason), names[n];
    LastApart(names);
    hide InInbox;
    assert all == before + if r.classify(last, v.inbox[last]) == reason then {last} else {};
    hide *;
  }

  // ---------- a second run ----------

  lemma {:induction false} LeftAreKept(r: Rules, v: Vault, names: seq<string>, n: nat)
    requires InInbox(v, names) && n <= |names|
    ensures forall i :: 0 <= i < n && names[i] in After(r, v, names, n).inbox ==>
              r.classify(names[i], v.inbox[names[i]]) == Keep
  {
    if n > 0 {
      LeftAreKept(r, v, names, n - 1);
      TurnsGrow(r, v, names, n - 1);
      TurnInbox(r, After(r, v, names, n - 1), names[n - 1]);
      hide Turn, After;
    }
  }

  lemma {:induction false} KeepingChangesNothing(r: Rules, v: Vault, names: seq<string>, n: nat)
    requires InInbox(v, names) && n <= |names|
    requires forall i :: 0 <= i < |names| ==> r.classify(names[i], v.inbox[names[i]]) == Keep
    ensures After(r, v, names, n) == v && Plan(r, v, names[..n]) == []
  {
    if n > 0 {
      KeepingChangesNothing(r, v, names, n - 1);
      assert names[..n][..n - 1] == names[..n - 1];
    }
  }

  /** A second applied run with the same rules moves nothing. */
  lemma SecondRunMovesNothing(r: Rules, v: Vault, names: seq<string>, again: seq<string>)
    requires Candidates(v, names) && InInbox(v, names)
    requires Candidates(After(r, v, names, |names|), again) && InInbox(After(r, v, names, |names|), again)
    ensures var v' := After(r, v, names, |names|);
      After(r, v', again, |again|) == v' && Plan(r, v', again) == []
  {
    var v' := After(r, v, names, |names|);
    LeftAreKept(r, v, names, |names|);
    AfterInbox(r, v, names, |names|);
    CandidatesInInbox(v, names);
    CandidatesInInbox(v', again);
    forall i | 0 <= i < |again|
      ensures r.classify(again[i], v'.inbox[again[i]]) == Keep
    {
      assert again[i] in again;
      assert again[i] in v.inbox && v'.inbox[again[i]] == v.inbox[again[i]];
      assert again[i] in names;
    }
    KeepingChangesNothing(r, v', again, |again|);
    assert again[..|again|] == again;
  }

  // ---------- conservation ----------

  datatype Place = AtInbox(name: string) | AtArchive(name: string) | AtQuarantine(name: string)

  function Lookup(m: map<string, string>, name: string): Option<string> {
    if name in m then Some(m[name]) else None
  }

  function At(v: Vault, p: Place): Option<string> {
    match p
    case AtInbox(n) => Lookup(v.inbox, n)
    case AtArchive(n) => Lookup(v.archive, n)
    case AtQuarantine(n) => Lookup(v.quarantine, n)
  }

  ghost predicate Keeps(was: map<string, string>, now: map<string, string>) {
    forall n :: n in was ==> n in now && now[n] == was[n]
  }

  /**
   * Nothing is lost or overwritten: what was archived or quarantined still is, and every
   * inbox file has its content in exactly one place, either its own or one that was free.
   */
  ghost predicate Conserved(was: Vault, v: Vault, places: map<string, Place>) {
    && Keeps(was.archive, v.archive) && Keeps(was.quarantine, v.quarantine)
    && Located(was, v, places) && OneEach(places) && Waiting(v, places)
  }

  ghost predicate Located(was: Vault, v: Vault, places: map<string, Place>) {
    && places.Keys == was.inbox.Keys
    && forall n :: n in places ==> At(v, places[n]) == Some(was.inbox[n]) && Proper(was, n, places[n])
  }

  ghost predicate OneEach(places: map<string, Place>) {
    forall m, n :: m in places && n in places && m != n ==> places[m] != places[n]
  }

  ghost predicate Waiting(v: Vault, places: map<string, Place>) {
    forall n :: n in v.inbox ==> n in places && places[n] == AtInbox(n)
  }

  ghost predicate Proper(was: Vault, n: string, p: Place) {
    match p
    case AtInbox(m) => m == n
    case AtArchive(m) => m !in was.archive
    case AtQuarantine(m) => m !in was.quarantine
  }

  /** Where a turn takes its file. */
  ghost function Destination(r: Rules, v: Vault, name: string): Place {
    if name !in v.inbox then AtInbox(name)
    else match r.classify(name, v.inbox[name])
    case Keep => AtInbox(name)
    case AgentMismatchQuarantine => AtQuarantine(FreshName(name, v.quarantine.Keys))
    case _ => AtArchive(FreshName(name, v.archive.Keys))
  }

  ghost function Places(r: Rules, v: Vault, names: seq<string>, n: nat): map<string, Place>
    requires n <= |names|
  {
    if n == 0 then map m | m in v.inbox :: AtInbox(m)
    else Places(r, v, names, n - 1)[names[n - 1] := Destination(r, After(r, v, names, n - 1), names[n - 1])]
  }

  /** A move to a free place that disturbs no other file. */
  lemma MoveConserves(was: Vault, v: Vault, next: Vault, places: map<string, Place>, name: string, p: Place)
    requires Conserved(was, v, places) && name in v.inbox
    requires At(v, p) == None && At(next, p) == Some(v.inbox[name]) && !p.AtInbox?
    requires forall q :: q != AtInbox(name) && At(v, q).Some? ==> At(next, q) == At(v, q)
    requires next.inbox == v.inbox - {name}
    ensures Conserved(was, next, places[name := p])
  {
    KeepsThrough(was, v, next, name);
    LocatedAfter(was, v, next, places, name, p);
    OneEachAfter(was, v, places, name, p);
    hide Located, OneEach, Keeps, At;
  }

  lemma KeepsThrough(was: Vault, v: Vault, next: Vault, name: string)
    requires Keeps(was.archive, v.archive) && Keeps(was.quarantine, v.quarantine)
    requires forall q :: q != AtInbox(name) && At(v, q).Some? ==> At(next, q) == At(v, q)
    ensures Keeps(was.archive, next.archive) && Keeps(was.quarantine, next.quarantine)
  {
    forall n | n in v.archive
      ensures n in next.archive && next.archive[n] == v.archive[n]
    {
      assert At(v, AtArchive(n)) == Some(v.archive[n]);
    }
    forall n | n in v.quarantine
      ensures n in next.quarantine && next.quarantine[n] == v.quarantine[n]
    {
      assert At(v, AtQuarantine(n)) == Some(v.quarantine[n]);
    }
  }

  lemma LocatedAfter(was: Vault, v: Vault, next: Vault, places: map<string, Place>, name: string, p: Place)
    requires Located(was, v, places) && OneEach(places) && Waiting(v, places) && name in v.inbox
    requires Keeps(was.archive, v.archive) && Keeps(was.quarantine, v.quarantine)
    requires At(v, p) == None && At(next, p) == Some(v.inbox[name]) && !p.AtInbox?
    requires forall q :: q != AtInbox(name) && At(v, q).Some? ==> At(next, q) == At(v, q)
    ensures Located(was, next, places[name := p])
  {
    assert At(v, AtInbox(name)) == Some(v.inbox[name]);
    forall n | n in places
      ensures n != name ==> At(next, places[n]) == Some(was.inbox[n]) && Proper(was, n, places[n])
    {
      assert n != name ==> places[n] != places[name];
    }
    hide Keeps;
    assert Proper(was, name, p) by { FreeIsProper(was, v, name, p); }
  }

  lemma FreeIsProper(was: Vault, v: Vault, name: string, p: Place)
    requires Keeps(was.archive, v.archive) && Keeps(was.quarantine, v.quarantine)
    requires At(v, p) == None && !p.AtInbox?
    ensures Proper(was, name, p)
  {
  }

  lemma OneEachAfter(was: Vault, v: Vault, places: map<string, Place>, name: string, p: Place)
    requires Located(was, v, places) && OneEach(places) && At(v, p) == None
    ensures OneEach(places[name := p])
  {
    forall n | n in places
      ensures places[n] != p
    {
      assert At(v, places[n]) == Some(was.inbox[n]);
    }
  }

  lemma ArchiveConserves(was: Vault, v: Vault, places: map<string, Place>, name: string)
    requires Conserved(was, v, places) && name in v.inbox
    ensures Conserved(was, ArchiveStep(v, name), places[name := AtArchive(FreshName(name, v.archive.Keys))])
  {
    FreshNameIsFree(name, v.archive.Keys);
    hide FreshName, Conserved;
    MoveConserves(was, v, ArchiveStep(v, name), places, name, AtArchive(FreshName(name, v.archive.Keys)));
  }

  lemma SidecarIsAnother(v: Vault, name: string)
    ensures Sidecar(v, name) != FreshName(name, v.quarantine.Keys)
  {
    hide FreshName;
    assert |Sidecar(v, name)| == |FreshName(name, v.quarantine.Keys)| + |SIDECAR_SUFFIX|;
  }

  lemma QuarantineConserves(was: Vault, v: Vault, places: map<string, Place>, name: string, payload: string)
    requires Conserved(was, v, places) && name in v.inbox
    requires Lookup(v.quarantine, Sidecar(v, name)) in {None, Some(payload)}
    ensures Conserved(was, QuarantineStep(v, name, payload),
                      places[name := AtQuarantine(FreshName(name, v.quarantine.Keys))])
  {
    FreshNameIsFree(name, v.quarantine.Keys);
    SidecarIsAnother(v, name);
    hide FreshName, Sidecar, Conserved;
    MoveConserves(was, v, QuarantineStep(v, name, payload), places, name,
                  AtQuarantine(FreshName(name, v.quarantine.Keys)));
  }

  /** The sidecar a turn would write has a name of its own, or finds its own text there. */
  ghost predicate Safe(r: Rules, v: Vault, name: string) {
    name in v.inbox && r.classify(name, v.inbox[name]) == AgentMismatchQuarantine ==>
      Lookup(v.quarantine, Sidecar(v, name)) in {None, Some(r.payload(name, v.inbox[name]))}
  }

  lemma KeptInPlace(was: Vault, v: Vault, places: map<string, Place>, name: string)
    requires Conserved(was, v, places) && name in v.inbox
    ensures places[name := AtInbox(name)] == places
  {
    assert places[name] == AtInbox(name);
  }

  lemma TurnConserves(r: Rules, was: Vault, v: Vault, places: map<string, Place>, name: string)
    requires Conserved(was, v, places) && name in v.inbox && Safe(r, v, name)
    ensures Conserved(was, Turn(r, v, name), places[name := Destination(r, v, name)])
  {
    hide Conserved, FreshName, Sidecar, ArchiveStep, QuarantineStep;
    var reason := r.classify(name, v.inbox[name]);
    KeptInPlace(was, v, places, name);
    if reason == AgentMismatchQuarantine {
      QuarantineConserves(was, v, places, name, r.payload(name, v.inbox[name]));
    } else if reason != Keep {
      ArchiveConserves(was, v, places, name);
    }
  }

  /** As long as no sidecar meets another text, a run conserves everything. */
  lemma {:induction false} RunConserves(r: Rules, v: Vault, names: seq<string>, n: nat)
    requires InInbox(v, names) && n <= |names|
    requires forall i :: 0 <= i < n ==> Safe(r, After(r, v, names, i), names[i])
    ensures Conserved(v, After(r, v, names, n), Places(r, v, names, n))
  {
    hide *;
    if n > 0 {
      RunConserves(r, v, names, n - 1);
      OneMoreConserved(r, v, names, n - 1);
    } else {
      NothingMoved(v);
      PlacesUnfold(r, v, names, 0);
    }
  }

  lemma OneMoreConserved(r: Rules, v: Vault, names: seq<string>, i: nat)
    requires InInbox(v, names) && i < |names| && Safe(r, After(r, v, names, i), names[i])
    requires Conserved(v, After(r, v, names, i), Places(r, v, names, i))
    ensures Conserved(v, After(r, v, names, i + 1), Places(r, v, names, i + 1))
  {
    hide *;
    PlacesUnfold(r, v, names, i + 1);
    TurnsGrow(r, v, names, i);
    TurnConserves(r, v, After(r, v, names, i), Places(r, v, names, i), names[i]);
  }

  lemma PlacesUnfold(r: Rules, v: Vault, names: seq<string>, n: nat)
    requires n <= |names|
    ensures n == 0 ==> After(r, v, names, n) == v && Places(r, v, names, n) == map m | m in v.inbox :: AtInbox(m)
    ensures n > 0 ==>
      Places(r, v, names, n)
          == Places(r, v, names, n - 1)[names[n - 1] := Destination(r, After(r, v, names, n - 1), names[n - 1])]
  {
  }

  lemma NothingMoved(v: Vault)
    ensures Conserved(v, v, map m | m in v.inbox :: AtInbox(m))
  {
  }

  // ---------- when a run does lose something ----------

  /** A name in quarantine was there at the start, is some file's place, or is a sidecar beside its file. */
  ghost predicate Known(was: Vault, v: Vault, places: map<string, Place>, x: string) {
    || x in was.quarantine
    || (exists m :: m in places && places[m] == AtQuarantine(x))
    || (exists f: string :: x == f + SIDECAR_SUFFIX && f in v.quarantine)
  }

  ghost predicate Accounted(was: Vault, v: Vault, places: map<string, Place>) {
    forall x :: x in v.quarantine ==> Known(was, v, places, x)
  }

  lemma KnownAfterTurn(r: Rules, was: Vault, v: Vault, places: map<string, Place>, name: string, x: string)
    requires Known(was, v, places, x) && name in places && places[name] == AtInbox(name)
    ensures Known(was, Turn(r, v, name), places[name := Destination(r, v, name)], x)
  {
    var next, p := Turn(r, v, name), Destination(r, v, name);
    TurnKeepsNames(r, v, name);
    hide Turn, Destination;
    if m :| m in places && places[m] == AtQuarantine(x) {
      assert m in places[name := p] && places[name := p][m] == AtQuarantine(x);
    }
  }

  /** No turn takes anything out of quarantine. */
  lemma TurnKeepsNames(r: Rules, v: Vault, name: string)
    ensures v.quarantine.Keys <= Turn(r, v, name).quarantine.Keys
  {
    hide FreshName, Sidecar;
  }

  /** What a turn adds to quarantine is its file and that file's sidecar. */
  lemma NewNamesKnown(r: Rules, was: Vault, v: Vault, places: map<string, Place>, name: string, x: string)
    requires x in Turn(r, v, name).quarantine && x !in v.quarantine
    ensures Known(was, Turn(r, v, name), places[name := Destination(r, v, name)], x)
  {
    hide FreshName;
    var t, after := FreshName(name, v.quarantine.Keys), places[name := Destination(r, v, name)];
    assert t in Turn(r, v, name).quarantine;
    if x == t {
      assert name in after && after[name] == AtQuarantine(x);
    } else {
      assert x == t + SIDECAR_SUFFIX;
    }
  }

  lemma TurnAccounts(r: Rules, was: Vault, v: Vault, places: map<string, Place>, name: string)
    requires Accounted(was, v, places) && name in places && places[name] == AtInbox(name)
    ensures Accounted(was, Turn(r, v, name), places[name := Destination(r, v, name)])
  {
    hide Known, Turn, Destination;
    forall x | x in Turn(r, v, name).quarantine
      ensures Known(was, Turn(r, v, name), places[name := Destination(r, v, name)], x)
    {
      if x in v.quarantine {
        KnownAfterTurn(r, was, v, places, name, x);
      } else {
        NewNamesKnown(r, was, v, places, name, x);
      }
    }
  }

  /** The places of the files whose turn is still to come are their own in the inbox. */
  lemma {:induction false} PlacesAhead(r: Rules, v: Vault, names: seq<string>, i: nat, m: string)
    requires InInbox(v, names) && i <= |names| && m in v.inbox && m !in names[..i]
    ensures m in Places(r, v, names, i) && Places(r, v, names, i)[m] == AtInbox(m)
  {
    if i > 0 {
      assert names[..i] == names[..i - 1] + [names[i - 1]];
      PlacesAhead(r, v, names, i - 1, m);
      hide Destination;
    }
  }

  lemma {:induction false} RunAccounts(r: Rules, v: Vault, names: seq<string>, i: nat)
    requires InInbox(v, names) && i <= |names|
    ensures Accounted(v, After(r, v, names, i), Places(r, v, names, i))
  {
    if i > 0 {
      RunAccounts(r, v, names, i - 1);
      assert names[i - 1] !in names[..i - 1];
      PlacesAhead(r, v, names, i - 1, names[i - 1]);
      TurnsGrow(r, v, names, i - 1);
      PlacesUnfold(r, v, names, i);
      hide *;
      TurnAccounts(r, v, After(r, v, names, i - 1), Places(r, v, names, i - 1), names[i - 1]);
    }
  }

  /** Once a file has had its turn its place is settled. */
  lemma {:induction false} PlaceStays(r: Rules, v: Vault, names: seq<string>, i: nat, n: nat, m: string)
    requires i <= n <= |names| && m in Places(r, v, names, i) && forall k :: i <= k < n ==> names[k] != m
    ensures m in Places(r, v, names, n) && Places(r, v, names, n)[m] == Places(r, v, names, i)[m]
  {
    if i < n {
      PlaceStays(r, v, names, i, n - 1, m);
      PlacesUnfold(r, v, names, n);
      hide Places, Destination, After;
    }
  }

  /** A later turn writes neither over a file in quarantine nor over its sidecar. */
  lemma TurnKeepsPair(r: Rules, v: Vault, name: string, t: string)
    requires t in v.quarantine && t + SIDECAR_SUFFIX in v.quarantine
    ensures var q := Turn(r, v, name).quarantine;
            t in q && t + SIDECAR_SUFFIX in q && q[t + SIDECAR_SUFFIX] == v.quarantine[t + SIDECAR_SUFFIX]
  {
    FreshNameIsFree(name, v.quarantine.Keys);
    SidecarTells(FreshName(name, v.quarantine.Keys), t);
    hide FreshName;
  }

  lemma SidecarTells(a: string, b: string)
    ensures a + SIDECAR_SUFFIX == b + SIDECAR_SUFFIX ==> a == b
  {
    if a + SIDECAR_SUFFIX == b + SIDECAR_SUFFIX {
      assert |a| == |b|;
      assert a == (a + SIDECAR_SUFFIX)[..|a|] && b == (b + SIDECAR_SUFFIX)[..|b|];
    }
  }

  lemma {:induction false} PairStays(r: Rules, v: Vault, names: seq<string>, i: nat, n: nat, t: string)
    requires InInbox(v, names) && i <= n <= |names|
    requires t in After(r, v, names, i).quarantine && t + SIDECAR_SUFFIX in After(r, v, names, i).quarantine
    ensures var q, q' := After(r, v, names, i).quarantine, After(r, v, names, n).quarantine;
            t in q' && t + SIDECAR_SUFFIX in q' && q'[t + SIDECAR_SUFFIX] == q[t + SIDECAR_SUFFIX]
  {
    if i < n {
      PairStays(r, v, names, i, n - 1, t);
      TurnsGrow(r, v, names, n - 1);
      hide After, Turn;
      TurnKeepsPair(r, After(r, v, names, n - 1), names[n - 1], t);
    }
  }

  /** An unsafe turn writes its sidecar over another text. */
  lemma UnsafeOverwrites(r: Rules, v: Vault, name: string)
    requires !Safe(r, v, name)
    ensures var t, q := FreshName(name, v.quarantine.Keys), Turn(r, v, name).quarantine;
            && t !in v.quarantine && t + SIDECAR_SUFFIX in v.quarantine
            && t in q && t + SIDECAR_SUFFIX in q && q[t + SIDECAR_SUFFIX] != v.quarantine[t + SIDECAR_SUFFIX]
  {
    FreshNameIsFree(name, v.quarantine.Keys);
    hide FreshName;
  }

  /** A text that was conserved and is overwritten for good is lost. */
  lemma OverwrittenIsLost(was: Vault, v: Vault, end: Vault, before: map<string, Place>, after: map<string, Place>,
                          x: string)
    requires Conserved(was, v, before) && Accounted(was, v, before) && x in v.quarantine
    requires forall f: string :: x == f + SIDECAR_SUFFIX ==> f !in v.quarantine
    requires forall m :: m in before && before[m] == AtQuarantine(x) ==> m in after && after[m] == before[m]
    requires x in end.quarantine && end.quarantine[x] != v.quarantine[x]
    ensures !Conserved(was, end, after)
  {
    assert Known(was, v, before, x);
    if x !in was.quarantine {
      var m :| m in before && before[m] == AtQuarantine(x);
      assert At(v, before[m]) == Some(was.inbox[m]);
      assert At(end, after[m]) != Some(was.inbox[m]);
    }
  }

  lemma FirstUnsafe(r: Rules, v: Vault, names: seq<string>, n: nat) returns (i: nat)
    requires n <= |names| && exists k :: 0 <= k < n && !Safe(r, After(r, v, names, k), names[k])
    ensures i < n && !Safe(r, After(r, v, names, i), names[i])
    ensures forall k :: 0 <= k < i ==> Safe(r, After(r, v, names, k), names[k])
  {
    hide Safe, After;
    i := 0;
    while Safe(r, After(r, v, names, i), names[i])
      invariant i < n && forall k :: 0 <= k < i ==> Safe(r, After(r, v, names, k), names[k])
      invariant exists k :: i <= k < n && !Safe(r, After(r, v, names, k), names[k])
      decreases n - i
    {
      i := i + 1;
    }
  }

  lemma UnsafeLoses(r: Rules, v: Vault, names: seq<string>, n: nat, i: nat)
    requires InInbox(v, names) && i < n <= |names| && !Safe(r, After(r, v, names, i), names[i])
    requires forall k :: 0 <= k < i ==> Safe(r, After(r, v, names, k), names[k])
    ensures !Conserved(v, After(r, v, names, n), Places(r, v, names, n))
  {
    hide Safe, Conserved, Accounted, After, Places, FreshName, Turn;
    var mid, t := After(r, v, names, i), FreshName(names[i], After(r, v, names, i).quarantine.Keys);
    RunConserves(r, v, names, i);
    RunAccounts(r, v, names, i);
    UnsafeOverwrites(r, mid, names[i]);
    TurnsGrow(r, v, names, i);
    PairStays(r, v, names, i + 1, n, t);
    forall f: string | t + SIDECAR_SUFFIX == f + SIDECAR_SUFFIX
      ensures f !in mid.quarantine
    {
      SidecarTells(t, f);
    }
    forall m | m in Places(r, v, names, i) && Places(r, v, names, i)[m] == AtQuarantine(t + SIDECAR_SUFFIX)
      ensures m in Places(r, v, names, n) && Places(r, v, names, n)[m] == Places(r, v, names, i)[m]
    {
      TurnIsPast(r, v, names, i, m);
      PlaceStays(r, v, names, i, n, m);
    }
    OverwrittenIsLost(v, mid, After(r, v, names, n), Places(r, v, names, i), Places(r, v, names, n),
                      t + SIDECAR_SUFFIX);
  }

  /** A file that is no longer in the inbox has no turn to come. */
  lemma TurnIsPast(r: Rules, v: Vault, names: seq<string>, i: nat, m: string)
    requires InInbox(v, names) && i <= |names|
    requires m in Places(r, v, names, i) && !Places(r, v, names, i)[m].AtInbox?
    ensures forall k :: i <= k < |names| ==> names[k] != m
  {
    hide Places;
    forall k | i <= k < |names|
      ensures names[k] != m
    {
      PlacesAhead(r, v, names, i, names[k]);
    }
  }

  /** A run conserves everything if and only if no sidecar of it meets another text. */
  lemma RunConservesExactlyWhen(r: Rules, v: Vault, names: seq<string>, n: nat)
    requires InInbox(v, names) && n <= |names|
    ensures Conserved(v, After(r, v, names, n), Places(r, v, names, n))
            <==> forall i :: 0 <= i < n ==> Safe(r, After(r, v, names, i), names[i])
  {
    hide Safe, Conserved, After, Places;
    if forall i :: 0 <= i < n ==> Safe(r, After(r, v, names, i), names[i]) {
      RunConserves(r, v, names, n);
    } else {
      var i := FirstUnsafe(r, v, names, n);
      UnsafeLoses(r, v, names, n, i);
    }
  }

  /**
   A move to quarantine keeps what is there exactly when the sidecar's name is free, or already held
   the same text.
   */
  lemma QuarantineKeepsExactlyWhen(v: Vault, name: string, payload: string)
    requires name in v.inbox
    ensures Keeps(v.quarantine, QuarantineStep(v, name, payload).quarantine) <==>
            Lookup(v.quarantine, Sidecar(v, name)) in {None, Some(payload)}
  {
    FreshNameIsFree(name, v.quarantine.Keys);
    SidecarIsAnother(v, name);
    hide FreshName, Sidecar;
    var q := QuarantineStep(v, name, payload).quarantine;
    assert q[Sidecar(v, name)] == payload;
  }

  /** So a sidecar left behind by a file that was taken away is overwritten by the next file of that name. */
  lemma OrphanSidecarIsOverwritten(v: Vault, name: string, payload: string)
    requires name in v.inbox && name !in v.quarantine
    requires name + SIDECAR_SUFFIX in v.quarantine && v.quarantine[name + SIDECAR_SUFFIX] != payload
    ensures !Keeps(v.quarantine, QuarantineStep(v, name, payload).quarantine)
  {
    FreshNameIsFree(name, v.quarantine.Keys);
    QuarantineKeepsExactlyWhen(v, name, payload);
  }

  /** Every sidecar in quarantine lies beside its file. */
  ghost predicate Paired(quarantine: map<string, string>) {
    forall f: string :: f + SIDECAR_SUFFIX in quarantine ==> f in quarantine
  }

  ghost predicate IsSidecarName(name: string) {
    exists f: string :: name == f + SIDECAR_SUFFIX
  }

  lemma PairedIsSafe(r: Rules, v: Vault, name: string)
    requires Paired(v.quarantine)
    ensures Safe(r, v, name)
  {
    FreshNameIsFree(name, v.quarantine.Keys);
    hide FreshName;
  }

  lemma JsonSuffix(name: string)
    requires IsJson(name)
    ensures Suffix(name) == ".json" || Suffix(name) == ""
    ensures Stem(name) + Suffix(name) == name
  {
    var n := |name|;
    assert name[n - 5] == name[n - 5..][0] && name[n - 4] == name[n - 5..][1] && name[n - 3] == name[n - 5..][2];
    assert name[n - 2] == name[n - 5..][3] && name[n - 1] == name[n - 5..][4];
    assert LastDot(name) == n - 5;
  }

  lemma SidecarLetters(name: string)
    ensures IsSidecarName(name) ==> |name| >= 12 && name[|name| - 1] == 'n' && name[|name| - 6] == 'n'
  {
    if f: string :| name == f + SIDECAR_SUFFIX {
      var n := |f|;
      assert name[n + 11] == SIDECAR_SUFFIX[11] && name[n + 6] == SIDECAR_SUFFIX[6];
    }
  }

  predicate IsDigit(c: char) {
    '0' <= c <= '9'
  }

  lemma NumberedDigit(stem: string, suffix: string, k: nat)
    requires k > 0 && (suffix == ".json" || suffix == "")
    ensures var t := Numbered(stem, suffix, k);
      if suffix == "" then |t| > 0 && IsDigit(t[|t| - 1]) else |t| >= 6 && IsDigit(t[|t| - 6])
  {
    DecimalIsDigits(k);
    var d := Decimal(k);
    var head := stem + "." + d;
    var t := Numbered(stem, suffix, k);
    hide Decimal;
    assert t == head + suffix;
    assert t[|head| - 1] == head[|head| - 1] == d[|d| - 1];
  }

  /** A numbered name never looks like a sidecar unless the name itself did. */
  lemma NumberedIsNoSidecar(name: string, k: nat)
    requires IsJson(name) && !IsSidecarName(name)
    ensures !IsSidecarName(Numbered(Stem(name), Suffix(name), k))
  {
    JsonSuffix(name);
    SidecarLetters(Numbered(Stem(name), Suffix(name), k));
    if k > 0 { NumberedDigit(Stem(name), Suffix(name), k); }
    hide Numbered, Stem, Suffix;
    if k == 0 { NumberedZero(name); }
  }

  lemma NumberedZero(name: string)
    ensures Numbered(Stem(name), Suffix(name), 0) == name
  {
  }

  lemma TurnKeepsPaired(r: Rules, v: Vault, name: string)
    requires Paired(v.quarantine) && name in v.inbox && IsJson(name)
    requires r.classify(name, v.inbox[name]) == AgentMismatchQuarantine ==> !IsSidecarName(name)
    ensures Paired(Turn(r, v, name).quarantine)
  {
    if r.classify(name, v.inbox[name]) == AgentMismatchQuarantine {
      NumberedIsDistinct(Stem(name), Suffix(name));
      NumberedIsNoSidecar(name, FirstFree(NumberedNames(Stem(name), Suffix(name)), v.quarantine.Keys));
      var target := FreshName(name, v.quarantine.Keys);
      assert !IsSidecarName(target);
      hide FreshName;
      var q := Turn(r, v, name).quarantine;
      forall f: string | f + SIDECAR_SUFFIX in q
        ensures f in q
      {
        if f + SIDECAR_SUFFIX == target + SIDECAR_SUFFIX {
          assert f == (f + SIDECAR_SUFFIX)[..|f|] == target;
        }
      }
    }
  }

  /** No file with a sidecar's name is about to be quarantined. */
  ghost predicate NoSidecarNames(r: Rules, v: Vault, names: seq<string>) {
    forall n :: n in names && n in v.inbox && r.classify(n, v.inbox[n]) == AgentMismatchQuarantine ==> !IsSidecarName(n)
  }

  lemma {:induction false} RunKeepsPaired(r: Rules, v: Vault, names: seq<string>, n: nat)
    requires InInbox(v, names) && n <= |names| && (forall i :: 0 <= i < |names| ==> IsJson(names[i]))
    requires Paired(v.quarantine) && NoSidecarNames(r, v, names)
    ensures Paired(After(r, v, names, n).quarantine)
  {
    if n > 0 {
      RunKeepsPaired(r, v, names, n - 1);
      TurnsGrow(r, v, names, n - 1);
      TurnKeepsPaired(r, After(r, v, names, n - 1), names[n - 1]);
      hide Turn, Paired, IsSidecarName, After;
    }
  }

  /** With every sidecar beside its file and no sidecar-named file to quarantine, no turn is unsafe. */
  lemma PairedRunIsSafe(r: Rules, v: Vault, names: seq<string>)
    requires Candidates(v, names) && Paired(v.quarantine) && NoSidecarNames(r, v, names)
    ensures InInbox(v, names) && forall i :: 0 <= i < |names| ==> Safe(r, After(r, v, names, i), names[i])
    ensures Paired(After(r, v, names, |names|).quarantine)
  {
    CandidatesInInbox(v, names);
    assert forall i :: 0 <= i < |names| ==> names[i] in names;
    hide Candidates, Paired, Safe, NoSidecarNames, Turn;
    forall i | 0 <= i < |names|
      ensures Safe(r, After(r, v, names, i), names[i])
    {
      RunKeepsPaired(r, v, names, i);
      PairedIsSafe(r, After(r, v, names, i), names[i]);
    }
    RunKeepsPaired(r, v, names, |names|);
  }

  /**
   An applied run over a vault loses and overwrites nothing if and only if no sidecar of it meets
   another text.  A vault with every sidecar beside its file and no sidecar-named file to quarantine
   is never in that case, and is left fit for the next run.
   */
  lemma CleanupConserves(r: Rules, v: Vault, names: seq<string>)
    requires Candidates(v, names)
    ensures Conserved(v, After(r, v, names, |names|), Places(r, v, names, |names|))
            <==> forall i :: 0 <= i < |names| ==> Safe(r, After(r, v, names, i), names[i])
    ensures Paired(v.quarantine) && NoSidecarNames(r, v, names) ==>
              && Conserved(v, After(r, v, names, |names|), Places(r, v, names, |names|))
              && Paired(After(r, v, names, |names|).quarantine)
  {
    CandidatesInInbox(v, names);
    hide Candidates, Conserved, Paired, Safe, NoSidecarNames, After, Places;
    RunConservesExactlyWhen(r, v, names, |names|);
    if Paired(v.quarantine) && NoSidecarNames(r, v, names) {
      PairedRunIsSafe(r, v, names);
    }
  }

  // ---------- all vaults ----------

  /** `run_cleanup`: every discovered vault in turn, by its own rules; the vaults do not share files. */
  method RunCleanup(vaults: seq<InboxDir>, rules: seq<Rules>, apply: bool)
    returns (reports: seq<Report>, ghost plans: seq<seq<string>>)
    requires |rules| == |vaults| && forall i, k :: 0 <= i < k < |vaults| ==> vaults[i] != vaults[k]
    modifies set v | v in vaults
    ensures |reports| == |plans| == |vaults|
    ensures forall i :: 0 <= i < |vaults| ==>
              Cleaned(rules[i], apply, old(vaults[i].Snapshot()), vaults[i].Snapshot(), plans[i], reports[i])
  {
    reports, plans := [], [];
    for i := 0 to |vaults|
      invariant |reports| == |plans| == i
      invariant forall k :: 0 <= k < i ==>
                Cleaned(rules[k], apply, old(vaults[k].Snapshot()), vaults[k].Snapshot(), plans[k], reports[k])
      invariant forall k :: i <= k < |vaults| ==> vaults[k].Snapshot() == old(vaults[k].Snapshot())
    {
      var report, names := vaults[i].Clean(rules[i], apply);
      hide Candidates, After, Plan, CountOf;
      reports, plans := reports + [report], plans + [names];
    }
  }

  /** What cleaning one vault does and reports. */
  ghost predicate Cleaned(r: Rules, apply: bool, was: Vault, v: Vault, names: seq<string>, report: Report) {
    && Candidates(was, names) && InInbox(was, names)
    && v == (if apply then After(r, was, names, |names|) else was)
    && report.total == |names| && report.moves == Plan(r, was, names)
    && report.counts.Keys == ALL_REASONS
    && forall reason :: reason in ALL_REASONS ==> report.counts[reason] == CountOf(r, was, names, reason)
  }

  /** A dry run reports exactly what an applied run does. */
  lemma DryRunIsThePlan(r: Rules, was: Vault, v: Vault, dry: Report, applied: Report, names: seq<string>,
        names': seq<string>)
    requires Cleaned(r, false, was, was, names, dry) && Cleaned(r, true, was, v, names', applied)
    ensures dry == applied && names == names'
  {
    AscendingIsUnique(names, names');
    assert forall reason :: reason in ALL_REASONS ==> dry.counts[reason] == applied.counts[reason];
    assert dry.counts == applied.counts;
  }
}
