/**
 * The prompt-template tracker of the recall replay: a ring of occurrences and a
 * small map of sessions stand in for an entry's unbounded history.
 */
module TemplateTracker {
  import opened Prelude
  import opened Ordering

  const MIN_PRIOR: nat := 3
  const MIN_SESSIONS: nat := 2
  const MIN_SPAN_MS: int := 2 * 60 * 60 * 1000
  const RING_MAX: nat := 16
  const SESSIONS_MAX: nat := 8
  const ENTRIES_MAX: nat := 500
  const IDLE_MAX_MS: int := 14 * 24 * 60 * 60 * 1000

  datatype Occ = Occ(ts: int, pid: string)
  datatype Entry = Entry(firstSeen: int, occ: seq<Occ>, sessions: map<string, int>)

  /** One accepted call of `record_occurrence`: its time, prompt id and session key. */
  datatype Sighting = Sighting(ts: int, pid: string, key: string)

  // ---------- the unbounded history ----------

  /** Insertion after every element at or before `x`: what a stable sort by time does with an appended `x`. */
  function Insert(s: seq<Occ>, x: Occ): seq<Occ> {
    if s == [] || s[|s| - 1].ts <= x.ts then s + [x]
    else Insert(s[..|s| - 1], x) + [s[|s| - 1]]
  }

  function Touch(m: map<string, int>, key: string, ts: int): map<string, int> {
    m[key := if key in m then Min(m[key], ts) else ts]
  }

  /** The entry as it would be with no ring, no session cap: every sighting is remembered. */
  function Full(h: seq<Sighting>): Entry
    requires h != []
  {
    var x := h[|h| - 1];
    if |h| == 1 then Entry(x.ts, [Occ(x.ts, x.pid)], map[x.key := x.ts])
    else
      var e := Full(h[..|h| - 1]);
      Entry(Min(e.firstSeen, x.ts), Insert(e.occ, Occ(x.ts, x.pid)), Touch(e.sessions, x.key, x.ts))
  }

  lemma FullUnfold(h: seq<Sighting>)
    requires |h| > 1
    ensures var n := |h| - 1; var e := Full(h[..n]);
      Full(h) == Entry(Min(e.firstSeen, h[n].ts), Insert(e.occ, Occ(h[n].ts, h[n].pid)),
                       Touch(e.sessions, h[n].key, h[n].ts))
  {
  }

  function Newest(s: seq<Occ>, n: nat): seq<Occ> {
    if |s| <= n then s else s[|s| - n..]
  }

  /** The bounded entry keeps the newest occurrences and the earliest sessions of the full one. */
  ghost predicate Bounds(f: Entry, e: Entry) {
    && e.firstSeen == f.firstSeen
    && e.occ == Newest(f.occ, RING_MAX)
    && IsEarliest(f.sessions, SESSIONS_MAX, e.sessions)
  }

  ghost predicate TimeSorted(s: seq<Occ>) {
    forall i, j :: 0 <= i < j < |s| ==> s[i].ts <= s[j].ts
  }

  lemma {:induction false} InsertAdds(s: seq<Occ>, x: Occ)
    ensures multiset(Insert(s, x)) == multiset(s) + multiset{x}
  {
    if s != [] && x.ts < s[|s| - 1].ts {
      var n := |s| - 1;
      InsertAdds(s[..n], x);
      assert s == s[..n] + [s[n]];
    }
  }

  lemma {:induction false} InsertSorts(s: seq<Occ>, x: Occ)
    requires TimeSorted(s)
    ensures TimeSorted(Insert(s, x))
  {
    if s != [] && x.ts < s[|s| - 1].ts {
      var n := |s| - 1;
      var t := Insert(s[..n], x);
      InsertSorts(s[..n], x);
      InsertAdds(s[..n], x);
      forall i | 0 <= i < |t|
        ensures t[i].ts <= s[n].ts
      {
        assert t[i] in multiset(t);
        assert t[i] == x || t[i] in s[..n];
      }
    }
  }

  function Occurrences(h: seq<Sighting>): seq<Occ> {
    seq(|h|, i requires 0 <= i < |h| => Occ(h[i].ts, h[i].pid))
  }

  lemma OccurrencesGrow(h: seq<Sighting>)
    requires h != []
    ensures var n := |h| - 1; Occurrences(h) == Occurrences(h[..n]) + [Occ(h[n].ts, h[n].pid)]
  {
  }

  /** The full entry holds every occurrence, in time order. */
  lemma {:induction false} FullHoldsAllOccurrences(h: seq<Sighting>)
    requires h != []
    ensures TimeSorted(Full(h).occ) && multiset(Full(h).occ) == multiset(Occurrences(h))
  {
    var n := |h| - 1;
    var x := Occ(h[n].ts, h[n].pid);
    if n == 0 {
      assert Full(h).occ == [x] == Occurrences(h);
    } else {
      FullHoldsAllOccurrences(h[..n]);
      FullUnfold(h);
      OccurrencesGrow(h);
      InsertSorts(Full(h[..n]).occ, x);
      InsertAdds(Full(h[..n]).occ, x);
      hide Full, Insert, TimeSorted, Occurrences;
    }
  }

  /** `first_seen` is the least time of all sightings. */
  lemma {:induction false} FirstSeenIsLeast(h: seq<Sighting>)
    requires h != []
    ensures forall x :: x in h ==> Full(h).firstSeen <= x.ts
    ensures exists x :: x in h && x.ts == Full(h).firstSeen
  {
    var n := |h| - 1;
    assert h == h[..n] + [h[n]] && h[n] in h;
    if n > 0 {
      FirstSeenIsLeast(h[..n]);
      var y :| y in h[..n] && y.ts == Full(h[..n]).firstSeen;
      assert y in h;
    }
  }

  /** Each session is kept with the least time of its sightings. */
  lemma {:induction false} SessionsAreFirstSightings(h: seq<Sighting>)
    requires h != []
    ensures forall i :: 0 <= i < |h| ==> h[i].key in Full(h).sessions && Full(h).sessions[h[i].key] <= h[i].ts
    ensures forall k :: k in Full(h).sessions ==> Sighted(h, k, Full(h).sessions[k])
  {
    var n := |h| - 1;
    if n > 0 {
      var g := h[..n];
      SessionsAreFirstSightings(g);
      forall i | 0 <= i < n
        ensures h[i].key in Full(h).sessions && Full(h).sessions[h[i].key] <= h[i].ts
      {
        assert h[i] == g[i];
      }
      forall k | k in Full(h).sessions
        ensures Sighted(h, k, Full(h).sessions[k])
      {
        if k in Full(g).sessions && (k != h[n].key || Full(g).sessions[k] <= h[n].ts) {
          assert Sighted(g, k, Full(g).sessions[k]);
          var i :| 0 <= i < n && g[i].key == k && g[i].ts == Full(g).sessions[k];
          assert h[i] == g[i];
        }
      }
    }
  }

  ghost predicate Sighted(h: seq<Sighting>, key: string, ts: int) {
    exists i :: 0 <= i < |h| && h[i].key == key && h[i].ts == ts
  }

  // ---------- one recording ----------

  lemma NewestOfSnoc(s: seq<Occ>, y: Occ, n: nat)
    requires n > 0
    ensures Newest(s + [y], n) == Newest(s, n - 1) + [y]
  {
  }

  lemma InsertIntoSnoc(s: seq<Occ>, y: Occ, x: Occ)
    ensures Insert(s + [y], x) == if y.ts <= x.ts then s + [y] + [x] else Insert(s, x) + [y]
  {
    assert (s + [y])[..|s|] == s;
  }

  /** Cutting to the newest before or after an insertion leaves the same ring. */
  lemma {:induction false} NewestOfInsert(s: seq<Occ>, x: Occ, n: nat)
    ensures Newest(Insert(Newest(s, n), x), n) == Newest(Insert(s, x), n)
  {
    if n == 0 || s == [] {
      assert Newest(Insert(s, x), 0) == [];
    } else {
      var t, y := s[..|s| - 1], s[|s| - 1];
      assert s == t + [y];
      var r := Newest(t, n - 1);
      NewestOfSnoc(t, y, n);
      InsertIntoSnoc(r, y, x);
      InsertIntoSnoc(t, y, x);
      NewestOfInsert(t, x, n - 1);
      NewestOfSnoc(Insert(r, x), y, n);
      NewestOfSnoc(Insert(t, x), y, n);
      NewestOfSnoc(r + [y], x, n);
      NewestOfSnoc(t + [y], x, n);
      hide Insert;
      if y.ts <= x.ts {
        NewestTwice(t, y, n);
      }
    }
  }

  lemma NewestTwice(t: seq<Occ>, y: Occ, n: nat)
    requires n > 0
    ensures Newest(Newest(t, n - 1) + [y], n - 1) == Newest(t + [y], n - 1)
  {
  }

  /**
   Cutting to the earliest sessions before or after an update keeps the same sessions, even when an
   evicted one returns.
   */
  lemma EarliestOfTouch(m: map<string, int>, b: map<string, int>, c: map<string, int>, k: string, t: int, n: nat)
    requires n > 0
    requires IsEarliest(m, n, b)
    requires IsEarliest(Touch(b, k, t), n, c)
    ensures IsEarliest(Touch(m, k, t), n, c)
  {
    if |m| <= n {
      SubsetSize(b.Keys, m.Keys);
      assert b == m;
    } else if k in b {
      TouchKept(m, b, c, k, t, n);
    } else if k in m && t > m[k] {
      TouchReturns(m, b, c, k, t, n);
    } else {
      TouchGrows(m, b, c, k, t, n);
    }
  }

  /** The case of a session still in the bounded map. */
  lemma TouchKept(m: map<string, int>, b: map<string, int>, c: map<string, int>, k: string, t: int, n: nat)
    requires |m| > n && k in b
    requires IsEarliest(m, n, b)
    requires IsEarliest(Touch(b, k, t), n, c)
    ensures IsEarliest(Touch(m, k, t), n, c)
  {
    var m', b' := Touch(m, k, t), Touch(b, k, t);
    assert b'.Keys == b.Keys && m'.Keys == m.Keys;
    SubsetSize(c.Keys, b'.Keys);
    forall q, d | q in c && d in m' && d !in c
      ensures Before(m', q, d)
    {
      assert Before(m, q, d);
    }
  }

  /** The case of an evicted session that returns too late: it is evicted again. */
  lemma TouchReturns(m: map<string, int>, b: map<string, int>, c: map<string, int>, k: string, t: int, n: nat)
    requires |m| > n && k in m && k !in b && t > m[k]
    requires IsEarliest(m, n, b)
    requires IsEarliest(Touch(b, k, t), n, c)
    ensures IsEarliest(Touch(m, k, t), n, c)
  {
    var b' := Touch(b, k, t);
    assert b'.Keys == b.Keys + {k} && |b'| == n + 1 && |c| == n == |b|;
    LatecomerDropped(m, b, c, k, t, n);
    EarliestIsSubset(b', n, c);
    EarliestIsSubset(m, n, b);
    hide IsEarliest, StrLess;
    assert Touch(m, k, t) == m;
    SubsetSize(c.Keys, b.Keys);
    assert c == b;
  }

  lemma EarliestIsSubset(m: map<string, int>, n: nat, b: map<string, int>)
    requires IsEarliest(m, n, b)
    ensures b.Keys <= m.Keys && forall k :: k in b ==> b[k] == m[k]
  {
  }

  lemma LatecomerDropped(m: map<string, int>, b: map<string, int>, c: map<string, int>, k: string, t: int, n: nat)
    requires |m| > n && k in m && k !in b && t > m[k]
    requires IsEarliest(m, n, b)
    requires IsEarliest(Touch(b, k, t), n, c) && |c| == n
    ensures k !in c
  {
    hide StrLess;
    if k in c {
      SameSizeDiffers(b.Keys, c.Keys, k);
      assert false;
    }
  }

  /** The case of a session that enters the bounded map with its true first time. */
  lemma TouchGrows(m: map<string, int>, b: map<string, int>, c: map<string, int>, k: string, t: int, n: nat)
    requires n > 0 && |m| > n && k !in b && (k in m ==> t <= m[k])
    requires IsEarliest(m, n, b)
    requires IsEarliest(Touch(b, k, t), n, c)
    ensures IsEarliest(Touch(m, k, t), n, c)
  {
    var m', b' := Touch(m, k, t), Touch(b, k, t);
    hide StrLess;
    assert b'.Keys == b.Keys + {k} && m'.Keys == m.Keys + {k};
    assert |c| == n == |b|;
    forall q, d | q in c && d in m' && d !in c
      ensures Before(m', q, d)
    {
      if d in b' {
        assert Before(b', q, d);
      } else if q != k {
        assert Before(m, q, d);
      } else {
        NewcomerFirst(m, b, c, k, t, d, n);
      }
    }
    SubsetSize(m.Keys, m'.Keys);
  }

  lemma NewcomerFirst(m: map<string, int>, b: map<string, int>, c: map<string, int>, k: string, t: int, d: string,
        n: nat)
    requires |m| > n && k !in b && k in c && d in m && d !in b && d != k
    requires IsEarliest(m, n, b)
    requires IsEarliest(Touch(b, k, t), n, c) && |c| == n
    ensures Before(Touch(m, k, t), k, d)
  {
    hide StrLess;
    SameSizeDiffers(b.Keys, c.Keys, k);
    var x :| x in b && x !in c;
    assert Before(Touch(b, k, t), k, x) && Before(m, x, d);
    if t == m[x] == m[d] {
      StrLessTransitive(k, x, d);
    }
  }

  /** One accepted recording keeps the refinement. */
  lemma RecordBounds(h: seq<Sighting>, e: Entry, x: Sighting, e': Entry)
    requires h != [] && Bounds(Full(h), e)
    requires e'.firstSeen == Min(e.firstSeen, x.ts)
    requires e'.occ == Newest(Insert(e.occ, Occ(x.ts, x.pid)), RING_MAX)
    requires IsEarliest(Touch(e.sessions, x.key, x.ts), SESSIONS_MAX, e'.sessions)
    ensures Bounds(Full(h + [x]), e')
  {
    var f := Full(h);
    assert (h + [x])[..|h|] == h;
    NewestOfInsert(f.occ, Occ(x.ts, x.pid), RING_MAX);
    EarliestOfTouch(f.sessions, e.sessions, e'.sessions, x.key, x.ts, SESSIONS_MAX);
  }

  // ---------- the scheduled-template rule ----------

  /** Occurrences strictly before `at` that belong to other prompts. */
  function Prior(occ: seq<Occ>, at: int, pid: string): nat {
    if occ == [] then 0
    else
      var o := occ[|occ| - 1];
      Prior(occ[..|occ| - 1], at, pid) + if o.pid != pid && o.ts < at then 1 else 0
  }

  /** The time of the first occurrence of `pid` itself. */
  function Own(occ: seq<Occ>, pid: string): Option<int> {
    if occ == [] then None
    else if occ[0].pid == pid then Some(occ[0].ts)
    else Own(occ[1..], pid)
  }

  function Earlier(sessions: map<string, int>, at: int): set<string> {
    set k | k in sessions && sessions[k] < at
  }

  /** Sessions first seen before `at`, less one that started with the prompt itself. */
  function SessionsBefore(sessions: map<string, int>, own: Option<int>, at: int): int {
    |Earlier(sessions, at)| - if own.Some? && own.value < at && own.value in sessions.Values then 1 else 0
  }

  predicate Verdict(e: Entry, at: int, pid: string) {
    && Prior(e.occ, at, pid) >= MIN_PRIOR
    && (at - e.firstSeen >= MIN_SPAN_MS || SessionsBefore(e.sessions, Own(e.occ, pid), at) >= MIN_SESSIONS)
  }

  ghost function PriorPositions(occ: seq<Occ>, at: int, pid: string): set<nat> {
    set i: nat | i < |occ| && occ[i].pid != pid && occ[i].ts < at
  }

  lemma {:induction false} PriorIsPositions(occ: seq<Occ>, at: int, pid: string)
    ensures Prior(occ, at, pid) == |PriorPositions(occ, at, pid)|
  {
    if occ == [] {
      assert PriorPositions(occ, at, pid) == {};
    } else {
      var n := |occ| - 1;
      PriorIsPositions(occ[..n], at, pid);
      assert PriorPositions(occ, at, pid)
          == PriorPositions(occ[..n], at, pid) + if occ[n].pid != pid && occ[n].ts < at then {n} else {};
      assert n !in PriorPositions(occ[..n], at, pid);
    }
  }

  /** The prompt's first occurrence in the ring is earlier than `at`, and some session began at that very time. */
  ghost predicate OpensSession(e: Entry, at: int, pid: string) {
    exists i, k :: 0 <= i < |e.occ| && e.occ[i].pid == pid && (forall j :: 0 <= j < i ==> e.occ[j].pid != pid)
                   && e.occ[i].ts < at && k in e.sessions && e.sessions[k] == e.occ[i].ts
  }

  lemma {:induction false} OwnIsFirst(occ: seq<Occ>, pid: string)
    ensures Own(occ, pid).None? <==> forall i :: 0 <= i < |occ| ==> occ[i].pid != pid
    ensures forall i :: 0 <= i < |occ| && occ[i].pid == pid ==>
              (forall j :: 0 <= j < i ==> occ[j].pid != pid) ==> Own(occ, pid) == Some(occ[i].ts)
    ensures Own(occ, pid).Some? ==>
              exists i :: 0 <= i < |occ| && occ[i].pid == pid && (forall j :: 0 <= j < i ==> occ[j].pid != pid)
  {
    if occ != [] && occ[0].pid != pid {
      var rest := occ[1..];
      OwnIsFirst(rest, pid);
      assert forall i :: 0 < i < |occ| ==> occ[i] == rest[i - 1];
      if Own(rest, pid).Some? {
        var i :| 0 <= i < |rest| && rest[i].pid == pid && (forall j :: 0 <= j < i ==> rest[j].pid != pid);
        assert occ[i + 1].pid == pid && forall j :: 0 <= j < i + 1 ==> occ[j].pid != pid;
      }
    }
  }

  lemma OpensSessionIs(e: Entry, at: int, pid: string)
    ensures var own := Own(e.occ, pid);
      OpensSession(e, at, pid) <==> own.Some? && own.value < at && own.value in e.sessions.Values
  {
    OwnIsFirst(e.occ, pid);
    hide Own;
  }

  /**
   The rule on any entry: at least three earlier occurrences of other prompts, and either two hours since the
   template was first seen, or two sessions first seen earlier, not counting one that this prompt opened.
   */
  lemma VerdictExactlyWhen(e: Entry, at: int, pid: string)
    ensures Verdict(e, at, pid) <==>
      && |set i: nat | i < |e.occ| && e.occ[i].pid != pid && e.occ[i].ts < at| >= 3
      && (at - e.firstSeen >= 7200000
          || |set k | k in e.sessions && e.sessions[k] < at| >= if OpensSession(e, at, pid) then 3 else 2)
  {
    PriorIsPositions(e.occ, at, pid);
    OpensSessionIs(e, at, pid);
    assert PriorPositions(e.occ, at, pid) == set i: nat | i < |e.occ| && e.occ[i].pid != pid && e.occ[i].ts < at;
    assert Earlier(e.sessions, at) == set k | k in e.sessions && e.sessions[k] < at;
    hide Own, Prior, OpensSession, PriorPositions, Earlier;
  }

  /** `is_scheduled_template`: `None` is an unknown template. */
  method IsScheduledTemplate(entry: Option<Entry>, at: int, pid: string) returns (scheduled: bool)
    ensures scheduled <==> entry.Some? && Verdict(entry.value, at, pid)
  {
    if entry.None? { return false; }
    var e := entry.value;
    var prior, own := 0, None;
    for i := 0 to |e.occ|
      invariant prior == Prior(e.occ[..i], at, pid)
      invariant own == Own(e.occ[..i], pid)
    {
      var o := e.occ[i];
      assert e.occ[..i + 1] == e.occ[..i] + [o];
      OwnOfConcat(e.occ[..i], [o], pid);
      if o.pid == pid {
        if own == None { own := Some(o.ts); }
      } else if o.ts < at {
        prior := prior + 1;
      }
    }
    assert e.occ[..|e.occ|] == e.occ;
    if prior < MIN_PRIOR { return false; }
    if at - e.firstSeen >= MIN_SPAN_MS { return true; }
    var before := CountSessionsBefore(e.sessions, own, at);
    return before >= MIN_SESSIONS;
  }

  /** The loop over the session values, in whatever order the dictionary gives them. */
  method CountSessionsBefore(sessions: map<string, int>, own: Option<int>, at: int) returns (before: int)
    ensures before == SessionsBefore(sessions, own, at)
  {
    before := 0;
    var ownExcluded := false;
    var todo := sessions.Keys;
    NoSessionsBefore(sessions, own, at);
    hide Counted, Without;
    while todo != {}
      invariant todo <= sessions.Keys
      invariant Counted(Without(sessions, todo), own, at, before, ownExcluded)
      decreases |todo|
    {
      var k :| k in todo;
      OneMoreSession(sessions, todo, k, own, at, before, ownExcluded);
      todo := todo - {k};
      if sessions[k] < at {
        if !ownExcluded && own.Some? && sessions[k] == own.value {
          ownExcluded := true;
        } else {
          before := before + 1;
        }
      }
    }
    CountIsSessionsBefore(sessions, own, at, before, ownExcluded);
  }

  ghost function Without(m: map<string, int>, todo: set<string>): map<string, int> {
    map k | k in m && k !in todo :: m[k]
  }

  /** The loop's tally over the sessions in `m`: `excluded` says one of them was taken for the prompt's own. */
  ghost predicate Counted(m: map<string, int>, own: Option<int>, at: int, before: int, excluded: bool) {
    && before == SessionsBefore(m, own, at)
    && (excluded <==> own.Some? && own.value < at && own.value in m.Values)
  }

  lemma CountIsSessionsBefore(m: map<string, int>, own: Option<int>, at: int, before: int, excluded: bool)
    requires Counted(Without(m, {}), own, at, before, excluded)
    ensures before == SessionsBefore(m, own, at)
  {
    assert Without(m, {}) == m;
  }

  lemma NoSessionsBefore(m: map<string, int>, own: Option<int>, at: int)
    ensures Counted(Without(m, m.Keys), own, at, 0, false)
  {
    assert Without(m, m.Keys) == map[];
    assert Earlier(map[], at) == {};
  }

  lemma OneMoreValue(m: map<string, int>, k: string, v: int)
    requires k !in m
    ensures m[k := v].Values == m.Values + {v}
  {
    var n := m[k := v];
    assert n[k] == v;
    forall x | x in m.Values
      ensures x in n.Values
    {
      var j :| j in m && m[j] == x;
      assert n[j] == x;
    }
  }

  lemma OneMoreEarlier(m: map<string, int>, k: string, v: int, at: int)
    requires k !in m
    ensures |Earlier(m[k := v], at)| == |Earlier(m, at)| + if v < at then 1 else 0
  {
    assert Earlier(m[k := v], at) == Earlier(m, at) + if v < at then {k} else {};
    assert k !in Earlier(m, at);
  }

  lemma OneMoreSession(m: map<string, int>, todo: set<string>, k: string, own: Option<int>, at: int, before: int,
        excluded: bool)
    requires k in todo && todo <= m.Keys && Counted(Without(m, todo), own, at, before, excluded)
    ensures var ownNow := m[k] < at && !excluded && own == Some(m[k]);
      Counted(Without(m, todo - {k}), own, at, before + (if m[k] < at && !ownNow then 1 else 0), excluded || ownNow)
  {
    var was := Without(m, todo);
    assert Without(m, todo - {k}) == was[k := m[k]] && k !in was;
    hide Earlier, Without;
    OneMoreValue(was, k, m[k]);
    OneMoreEarlier(was, k, m[k], at);
  }

  lemma {:induction false} OwnOfConcat(a: seq<Occ>, b: seq<Occ>, pid: string)
    ensures Own(a + b, pid) == if Own(a, pid).Some? then Own(a, pid) else Own(b, pid)
  {
    if a == [] {
      assert a + b == b;
    } else {
      assert (a + b)[1..] == a[1..] + b;
      OwnOfConcat(a[1..], b, pid);
    }
  }

  // ---------- the bounded verdict against the full one ----------

  function PidCount(s: seq<Occ>, pid: string): nat {
    if s == [] then 0
    else PidCount(s[..|s| - 1], pid) + if s[|s| - 1].pid == pid then 1 else 0
  }

  lemma {:induction false} PidCountOfConcat(a: seq<Occ>, b: seq<Occ>, pid: string)
    ensures PidCount(a + b, pid) == PidCount(a, pid) + PidCount(b, pid)
  {
    if b == [] {
      assert a + b == a;
    } else {
      assert (a + b)[..|a + b| - 1] == a + b[..|b| - 1];
      PidCountOfConcat(a, b[..|b| - 1], pid);
    }
  }

  lemma {:induction false} PidCountOfInsert(s: seq<Occ>, x: Occ, pid: string)
    ensures PidCount(Insert(s, x), pid) == PidCount(s + [x], pid)
  {
    var z := |s| - 1;
    assert (s + [x])[..|s|] == s;
    if s != [] && x.ts < s[z].ts {
      PidCountOfInsert(s[..z], x, pid);
      assert (s[..z] + [x])[..z] == s[..z];
      var t := Insert(s[..z], x);
      assert (t + [s[z]])[..|t|] == t;
    }
  }

  ghost predicate FreshPids(h: seq<Sighting>) {
    forall i, j :: 0 <= i < j < |h| ==> h[i].pid != h[j].pid
  }

  ghost predicate Mentions(h: seq<Sighting>, pid: string) {
    exists i :: 0 <= i < |h| && h[i].pid == pid
  }

  lemma FullOccStep(h: seq<Sighting>, pid: string)
    requires |h| > 1
    ensures var n := |h| - 1;
      PidCount(Full(h).occ, pid) == PidCount(Full(h[..n]).occ, pid) + if h[n].pid == pid then 1 else 0
  {
    var n := |h| - 1;
    var x := Occ(h[n].ts, h[n].pid);
    PidCountOfInsert(Full(h[..n]).occ, x, pid);
    PidCountOfConcat(Full(h[..n]).occ, [x], pid);
    PidCountOfOne(x, pid);
    FullUnfold(h);
    hide PidCount, Insert, Full;
  }

  lemma {:induction false} FreshPidsCountOnce(h: seq<Sighting>, pid: string)
    requires h != [] && FreshPids(h)
    ensures PidCount(Full(h).occ, pid) == if Mentions(h, pid) then 1 else 0
  {
    var n := |h| - 1;
    var g := h[..n];
    assert h[n].pid == pid ==> Mentions(h, pid);
    if n == 0 {
      assert Full(h).occ == [Occ(h[0].ts, h[0].pid)];
      hide PidCount, Full;
      PidCountOfOne(Occ(h[0].ts, h[0].pid), pid);
    } else {
      hide PidCount, Full;
      FreshPidsCountOnce(g, pid);
      FullOccStep(h, pid);
      assert forall i :: 0 <= i < n ==> g[i] == h[i];
      assert Mentions(h, pid) <==> Mentions(g, pid) || h[n].pid == pid;
    }
  }

  lemma PidCountOfOne(x: Occ, pid: string)
    ensures PidCount([x], pid) == if x.pid == pid then 1 else 0
  {
  }

  lemma {:induction false} PriorCountsOthers(s: seq<Occ>, at: int, pid: string)
    requires forall i :: 0 <= i < |s| ==> s[i].ts < at
    ensures Prior(s, at, pid) == |s| - PidCount(s, pid)
  {
    if s != [] {
      PriorCountsOthers(s[..|s| - 1], at, pid);
    }
  }

  lemma {:induction false} OwnIsCounted(s: seq<Occ>, pid: string)
    ensures Own(s, pid).Some? <==> PidCount(s, pid) > 0
  {
    if s != [] {
      OwnIsCounted(s[1..], pid);
      assert s == [s[0]] + s[1..];
      PidCountOfConcat([s[0]], s[1..], pid);
    }
  }

  /** `at` comes after everything recorded. */
  ghost predicate Later(h: seq<Sighting>, at: int) {
    forall i :: 0 <= i < |h| ==> h[i].ts < at
  }

  /**
   * The only way the bounded entry can err: the prompt being judged was itself
   * recorded and then pushed out of the ring, so the session it opened is no
   * longer discounted, and that session decides.
   */
  ghost predicate ForgotOwnSession(f: Entry, e: Entry, at: int, pid: string) {
    && Own(f.occ, pid).Some? && Own(e.occ, pid).None?
    && at - f.firstSeen < MIN_SPAN_MS
    && |f.sessions| == MIN_SESSIONS && Own(f.occ, pid).value in f.sessions.Values
  }

  lemma RingCounts(h: seq<Sighting>, at: int, pid: string)
    requires h != [] && FreshPids(h) && Later(h, at)
    ensures var f := Full(h).occ; var r := Newest(f, RING_MAX);
      && |f| == |h|
      && Prior(f, at, pid) == |f| - PidCount(f, pid) && Prior(r, at, pid) == |r| - PidCount(r, pid)
      && PidCount(r, pid) <= PidCount(f, pid) <= 1
      && (Own(r, pid).Some? ==> Own(f, pid) == Own(r, pid))
      && (Own(f, pid).Some? ==> Own(f, pid).value < at)
  {
    var f := Full(h).occ;
    var r := Newest(f, RING_MAX);
    var gone := f[..|f| - |r|];
    assert f == gone + r;
    FullIsEarlier(h, at);
    PriorCountsOthers(f, at, pid);
    PriorCountsOthers(r, at, pid);
    FreshPidsCountOnce(h, pid);
    PidCountOfConcat(gone, r, pid);
    OwnOfConcat(gone, r, pid);
    OwnIsCounted(gone, pid);
    OwnIsCounted(r, pid);
    OwnIsRecorded(f, pid);
    hide Full, Own, Prior, PidCount;
  }

  lemma FullIsEarlier(h: seq<Sighting>, at: int)
    requires h != [] && Later(h, at)
    ensures |Full(h).occ| == |h| && forall i :: 0 <= i < |h| ==> Full(h).occ[i].ts < at
  {
    var f := Full(h).occ;
    FullHoldsAllOccurrences(h);
    hide Full;
    assert |f| == |multiset(f)| == |Occurrences(h)|;
    forall i | 0 <= i < |f|
      ensures f[i].ts < at
    {
      assert f[i] in multiset(f);
      assert f[i] in Occurrences(h);
    }
  }

  lemma {:induction false} OwnIsRecorded(s: seq<Occ>, pid: string)
    ensures Own(s, pid).Some? ==> exists i :: 0 <= i < |s| && s[i] == Occ(Own(s, pid).value, pid)
  {
    if s != [] && s[0].pid != pid {
      OwnIsRecorded(s[1..], pid);
    }
  }

  lemma AllSessionsEarlier(h: seq<Sighting>, at: int, m: map<string, int>)
    requires h != [] && Later(h, at)
    requires m.Keys <= Full(h).sessions.Keys && forall k :: k in m ==> m[k] == Full(h).sessions[k]
    ensures Earlier(m, at) == m.Keys
  {
    SessionsAreFirstSightings(h);
    forall k | k in m
      ensures m[k] < at
    {
      assert Sighted(h, k, Full(h).sessions[k]);
    }
  }

  /** The bounded entry gives the full history's verdict except in that one case. */
  lemma BoundedVerdict(h: seq<Sighting>, e: Entry, at: int, pid: string)
    requires h != [] && FreshPids(h) && Later(h, at)
    requires Bounds(Full(h), e)
    ensures (Verdict(e, at, pid) <==> Verdict(Full(h), at, pid)) <==> !ForgotOwnSession(Full(h), e, at, pid)
  {
    var f := Full(h);
    RingCounts(h, at, pid);
    AllSessionsEarlier(h, at, f.sessions);
    AllSessionsEarlier(h, at, e.sessions);
    if |f.sessions| <= SESSIONS_MAX {
      SubsetSize(e.sessions.Keys, f.sessions.Keys);
      assert e.sessions == f.sessions;
    }
  }

  /** So for a prompt not recorded before, bounded memory makes no difference. */
  lemma FreshPromptSameVerdict(h: seq<Sighting>, e: Entry, at: int, pid: string)
    requires h != [] && FreshPids(h) && Later(h, at) && Bounds(Full(h), e)
    requires !Mentions(h, pid)
    ensures Verdict(e, at, pid) <==> Verdict(Full(h), at, pid)
  {
    FreshPidsCountOnce(h, pid);
    OwnIsCounted(Full(h).occ, pid);
    BoundedVerdict(h, e, at, pid);
  }

  /**
   The rule for a new prompt, over the sightings alone: at least three of them, and one of them two hours
   earlier or two of different sessions.
   */
  ghost predicate Scheduled(h: seq<Sighting>, at: int) {
    && |h| >= 3
    && ((exists i :: 0 <= i < |h| && at - h[i].ts >= 7200000)
        || (exists i, j :: 0 <= i < |h| && 0 <= j < |h| && h[i].key != h[j].key))
  }

  lemma NewPromptVerdict(h: seq<Sighting>, at: int, pid: string)
    requires h != [] && FreshPids(h) && Later(h, at) && !Mentions(h, pid)
    ensures Verdict(Full(h), at, pid) <==> Scheduled(h, at)
  {
    var f := Full(h);
    RingCounts(h, at, pid);
    FreshPidsCountOnce(h, pid);
    OwnIsCounted(f.occ, pid);
    AllSessionsEarlier(h, at, f.sessions);
    SpanOf(h, at);
    SessionsOf(h);
    hide Full, Prior, Own, PidCount, Earlier, FreshPids, Later, Mentions, Newest;
  }

  lemma SpanOf(h: seq<Sighting>, at: int)
    requires h != []
    ensures at - Full(h).firstSeen >= 7200000 <==> exists i :: 0 <= i < |h| && at - h[i].ts >= 7200000
  {
    FirstSeenIsLeast(h);
    hide Full;
    var x :| x in h && x.ts == Full(h).firstSeen;
    var i :| 0 <= i < |h| && h[i] == x;
    forall k | 0 <= k < |h|
      ensures h[k].ts >= Full(h).firstSeen
    {
      assert h[k] in h;
    }
  }

  /**
   What an entry remembers of its sightings: the 16 newest of them, the first times of the 8 sessions that began
   first, and the time of the first sighting of all.
   */
  lemma MemoryIsBounded(h: seq<Sighting>, e: Entry)
    requires h != [] && Bounds(Full(h), e)
    ensures |e.occ| == (if |h| <= 16 then |h| else 16) && TimeSorted(e.occ)
    ensures forall o :: o in e.occ ==> exists i :: 0 <= i < |h| && o == Occ(h[i].ts, h[i].pid)
    ensures var keys := set i | 0 <= i < |h| :: h[i].key;
      e.sessions.Keys <= keys && |e.sessions| == if |keys| <= 8 then |keys| else 8
    ensures exists x :: x in h && x.ts == e.firstSeen && forall y :: y in h ==> e.firstSeen <= y.ts
  {
    hide *;
    BoundsMeans(Full(h), e);
    FirstSeenIsLeast(h);
    RingIsBounded(h, e.occ);
    KeysOfSessions(h);
    EarliestSize(Full(h).sessions, e.sessions);
  }

  lemma BoundsMeans(f: Entry, e: Entry)
    requires Bounds(f, e)
    ensures e.firstSeen == f.firstSeen && e.occ == Newest(f.occ, 16) && IsEarliest(f.sessions, SESSIONS_MAX, e.sessions)
  {
  }

  lemma RingIsBounded(h: seq<Sighting>, occ: seq<Occ>)
    requires h != [] && occ == Newest(Full(h).occ, 16)
    ensures |occ| == (if |h| <= 16 then |h| else 16) && TimeSorted(occ)
    ensures forall o :: o in occ ==> exists i :: 0 <= i < |h| && o == Occ(h[i].ts, h[i].pid)
  {
    hide Full;
    var s := Full(h).occ;
    FullHoldsAllOccurrences(h);
    OccurrencesCount(h, s);
    assert forall o :: o in occ ==> o in s;
  }

  lemma KeysOfSessions(h: seq<Sighting>)
    requires h != []
    ensures Full(h).sessions.Keys == set i | 0 <= i < |h| :: h[i].key
  {
    hide Full;
    SessionsAreFirstSightings(h);
  }

  lemma EarliestSize(m: map<string, int>, b: map<string, int>)
    requires IsEarliest(m, SESSIONS_MAX, b)
    ensures b.Keys <= m.Keys && |b| == if |m| <= 8 then |m| else 8
  {
  }

  lemma OccurrencesCount(h: seq<Sighting>, s: seq<Occ>)
    requires multiset(s) == multiset(Occurrences(h))
    ensures |s| == |h|
    ensures forall o :: o in s ==> exists i :: 0 <= i < |h| && o == Occ(h[i].ts, h[i].pid)
  {
    assert |multiset(s)| == |multiset(Occurrences(h))|;
    forall o | o in s
      ensures exists i :: 0 <= i < |h| && o == Occ(h[i].ts, h[i].pid)
    {
      assert o in multiset(s);
      assert o in Occurrences(h);
    }
  }

  lemma SessionsOf(h: seq<Sighting>)
    requires h != []
    ensures |Full(h).sessions| >= 2 <==> exists i, j :: 0 <= i < |h| && 0 <= j < |h| && h[i].key != h[j].key
  {
    SessionsAreFirstSightings(h);
    hide Full;
    var m := Full(h).sessions;
    if i, j :| 0 <= i < |h| && 0 <= j < |h| && h[i].key != h[j].key {
      SubsetSize({h[i].key, h[j].key}, m.Keys);
    } else {
      assert forall k :: k in m ==> k == h[0].key by {
        forall k | k in m
          ensures k == h[0].key
        {
          assert Sighted(h, k, m[k]);
        }
      }
      SubsetSize(m.Keys, {h[0].key});
    }
  }

  /** Such a stream: one prompt from session "a", then one a millisecond from session "b". */
  function Steady(n: nat): seq<Sighting> {
    seq(n, i requires 0 <= i < n => Sighting(i, seq(i, _ => 'p'), if i == 0 then "a" else "b"))
  }

  lemma {:induction false} SteadyIsInOrder(n: nat)
    requires n >= 2
    ensures Full(Steady(n)) == Entry(0, Occurrences(Steady(n)), map["a" := 0, "b" := 1])
  {
    hide Full, Occurrences, Steady, Insert, Touch;
    var h := Steady(n);
    var g := Steady(n - 1);
    if n == 2 {
      SteadyStart();
    } else {
      SteadyIsInOrder(n - 1);
    }
    SteadyStep(n);
    FullUnfold(h);
    OccurrencesGrow(h);
    InsertLast(Occurrences(g), Occ(h[n - 1].ts, h[n - 1].pid));
    TouchSecond(n);
  }

  lemma InsertLast(s: seq<Occ>, x: Occ)
    requires s != [] && s[|s| - 1].ts <= x.ts
    ensures Insert(s, x) == s + [x]
  {
  }

  lemma TouchSecond(n: nat)
    requires n >= 2
    ensures Touch(if n == 2 then map["a" := 0] else map["a" := 0, "b" := 1], "b", n - 1) == map["a" := 0, "b" := 1]
  {
  }

  lemma SteadyStep(n: nat)
    requires n >= 2
    ensures var h := Steady(n); var g := Steady(n - 1);
      |h| == n && |g| == n - 1 && h[..n - 1] == g && h[n - 1].ts == n - 1 && h[n - 1].key == "b"
      && |Occurrences(g)| == n - 1 && Occurrences(g)[n - 2].ts == n - 2
  {
  }

  lemma SteadyStart()
    ensures Full(Steady(1)) == Entry(0, Occurrences(Steady(1)), map["a" := 0])
  {
    var g := Steady(1);
    assert g[0].pid == "";
    assert Occurrences(g) == [Occ(0, "")];
  }

  lemma SteadyStream(n: nat)
    requires n > RING_MAX
    ensures var h := Steady(n); var f := Full(h);
      && f == Entry(0, Occurrences(h), map["a" := 0, "b" := 1])
      && FreshPids(h) && Later(h, n)
      && Own(f.occ, "") == Some(0) && Own(Newest(f.occ, RING_MAX), "") == None
  {
    var h := Steady(n);
    SteadyIsInOrder(n);
    assert forall i :: 0 <= i < n ==> |h[i].pid| == i;
    assert Occurrences(h)[0] == Occ(0, "");
    NoOwn(Newest(Occurrences(h), RING_MAX));
  }

  /** The exception is real: judged again after 16 others, the first prompt counts its own session. */
  lemma EvictedPromptIsMisjudged()
    ensures var h := Steady(RING_MAX + 1);
      var e := Entry(0, Newest(Occurrences(h), RING_MAX), map["a" := 0, "b" := 1]);
      && FreshPids(h) && Later(h, RING_MAX + 1) && Bounds(Full(h), e)
      && Verdict(e, RING_MAX + 1, "") && !Verdict(Full(h), RING_MAX + 1, "")
  {
    var n := RING_MAX + 1;
    var h := Steady(n);
    SteadyStream(n);
    RingCounts(h, n, "");
    var f := Full(h);
    var e := Entry(0, Newest(f.occ, RING_MAX), f.sessions);
    hide Full, Own, Prior, PidCount, Newest, Steady, StrLess;
    assert Bounds(f, e);
    TwoSessions(n);
    assert !Verdict(f, n, "") && Verdict(e, n, "");
  }

  lemma TwoSessions(at: int)
    requires at > 1
    ensures var m := map["a" := 0, "b" := 1];
      SessionsBefore(m, None, at) == 2 && SessionsBefore(m, Some(0), at) == 1
  {
    var m := map["a" := 0, "b" := 1];
    assert m["a"] == 0;
    assert Earlier(m, at) == {"a", "b"};
    assert |{"a", "b"}| == 2;
  }

  lemma {:induction false} NoOwn(s: seq<Occ>)
    requires forall i :: 0 <= i < |s| ==> s[i].pid != ""
    ensures Own(s, "") == None
  {
    if s != [] { NoOwn(s[1..]); }
  }

  // ---------- the tracker object ----------

  /** `_last_seen`: the newest time in the ring, or `first_seen` if that is later. */
  function LastSeen(e: Entry): int {
    if e.occ != [] && e.firstSeen < e.occ[|e.occ| - 1].ts then e.occ[|e.occ| - 1].ts else e.firstSeen
  }

  /** On a bounded entry that is the newest time ever recorded. */
  lemma {:induction false} LastSeenIsNewest(h: seq<Sighting>, e: Entry)
    requires h != [] && Bounds(Full(h), e)
    ensures forall i :: 0 <= i < |h| ==> h[i].ts <= LastSeen(e)
    ensures exists i :: 0 <= i < |h| && h[i].ts == LastSeen(e)
  {
    var f := Full(h).occ;
    FullHasOccurrences(h);
    FullHoldsAllOccurrences(h);
    FirstSeenIsLeast(h);
    var last := f[|f| - 1];
    forall i | 0 <= i < |h|
      ensures h[i].ts <= last.ts
    {
      var o := Occurrences(h)[i];
      assert o in multiset(f);
      var j :| 0 <= j < |f| && f[j] == o;
    }
    assert last in multiset(f);
    assert last in multiset(Occurrences(h));
    var i :| 0 <= i < |h| && Occurrences(h)[i] == last;
    assert h[i].ts == last.ts && e.occ[|e.occ| - 1] == last;
  }

  lemma FullHasOccurrences(h: seq<Sighting>)
    requires h != []
    ensures Full(h).occ != []
  {
    FullHoldsAllOccurrences(h);
    assert |multiset(Full(h).occ)| == |Occurrences(h)|;
  }

  function SeenTimes(t: map<string, Entry>): map<string, int> {
    map g | g in t :: LastSeen(t[g])
  }

  function Live(seen: map<string, int>, now: int): set<string> {
    set g | g in seen && now - seen[g] <= IDLE_MAX_MS
  }

  /** What `_prune` keeps: the live templates, and of these the `ENTRIES_MAX` seen last. */
  ghost predicate Survive(seen: map<string, int>, now: int, kept: set<string>) {
    && kept <= Live(seen, now)
    && |kept| == (if |Live(seen, now)| <= ENTRIES_MAX then |Live(seen, now)| else ENTRIES_MAX)
    && (forall k, d :: k in kept && d in Live(seen, now) && d !in kept ==> Before(seen, d, k))
  }

  /** The same in figures: at most 500, none unseen for more than a fortnight, and dropped is only who must be. */
  ghost predicate Pruned(seen: map<string, int>, now: int, kept: set<string>) {
    && |kept| <= 500 && (forall k :: k in kept ==> k in seen && now - seen[k] <= 1209600000)
    && forall d :: d in seen && d !in kept && now - seen[d] <= 1209600000 ==>
         |kept| == 500 && forall k :: k in kept ==> seen[d] < seen[k] || (seen[d] == seen[k] && StrLess(d, k))
  }

  lemma SurvivorsArePruned(seen: map<string, int>, now: int, kept: set<string>)
    requires Survive(seen, now, kept)
    ensures Pruned(seen, now, kept)
  {
    hide StrLess;
    forall d | d in seen && d !in kept && now - seen[d] <= 1209600000
      ensures |kept| == 500
      ensures forall k :: k in kept ==> seen[d] < seen[k] || (seen[d] == seen[k] && StrLess(d, k))
    {
      assert d in Live(seen, now);
      SubsetSize(kept, Live(seen, now));
      forall k | k in kept
        ensures seen[d] < seen[k] || (seen[d] == seen[k] && StrLess(d, k))
      {
        assert Before(seen, d, k);
      }
    }
  }

  /** `(session_key_prefix or "unlabeled")[:8]` */
  function SessionKey(prefix: string): (key: string)
    ensures prefix == "" ==> key == "unlabele"
    ensures prefix != "" ==> key <= prefix && (key == prefix || |key| == 8)
    ensures |key| <= 8
  {
    Clip(if prefix == "" then "unlabeled" else prefix)
  }

  /** `[:8]` */
  function Clip(s: string): string {
    if |s| <= 8 then s else s[..8]
  }

  predicate InRing(t: map<string, Entry>, h: string, pid: string) {
    h in t && exists o :: o in t[h].occ && o.pid == pid
  }

  /** The history of `h` with one more sighting. */
  function Grown(hs: map<string, seq<Sighting>>, h: string, x: Sighting): map<string, seq<Sighting>> {
    hs[h := (if h in hs then hs[h] else []) + [x]]
  }

  /** The newest time of each history. */
  ghost function Latest(hs: map<string, seq<Sighting>>): map<string, int> {
    map g | g in hs :: if hs[g] == [] then 0 else LastSeen(Full(hs[g]))
  }

  ghost function Only(hs: map<string, seq<Sighting>>, kept: set<string>): map<string, seq<Sighting>> {
    map g | g in hs && g in kept :: hs[g]
  }

  lemma SameLastSeen(f: Entry, e: Entry)
    requires f.occ != [] && Bounds(f, e)
    ensures LastSeen(e) == LastSeen(f)
  {
  }

  lemma {:induction false} InsertAt(s: seq<Occ>, x: Occ, i: nat)
    requires i <= |s| && (forall j :: i <= j < |s| ==> s[j].ts > x.ts) && (i > 0 ==> s[i - 1].ts <= x.ts)
    ensures Insert(s, x) == s[..i] + [x] + s[i..]
  {
    if i < |s| {
      var z := |s| - 1;
      InsertAt(s[..z], x, i);
      assert s[..z][..i] == s[..i] && s[..z][i..] + [s[z]] == s[i..];
    }
  }

  /** Append and sort by time; the list was sorted, so the sort moves only the new element. */
  method AppendByTime(s: seq<Occ>, x: Occ) returns (r: seq<Occ>)
    ensures r == Insert(s, x)
  {
    var i := |s|;
    while i > 0 && s[i - 1].ts > x.ts
      invariant 0 <= i <= |s| && forall j :: i <= j < |s| ==> s[j].ts > x.ts
    {
      i := i - 1;
    }
    InsertAt(s, x, i);
    r := s[..i] + [x] + s[i..];
  }

  method CutSessions(m: map<string, int>) returns (c: map<string, int>)
    ensures IsEarliest(m, SESSIONS_MAX, c)
  {
    if |m| <= SESSIONS_MAX { return m; }
    var pairs := SortKeys(m);
    PrefixIsEarliest(m, pairs, SESSIONS_MAX);
    c := map k | k in pairs[..SESSIONS_MAX] :: m[k];
  }

  /** Every tracked entry is the bounded form of its history. */
  ghost predicate Mirrors(t: map<string, Entry>, hs: map<string, seq<Sighting>>) {
    && hs.Keys == t.Keys
    && forall h :: h in t ==> hs[h] != [] && Bounds(Full(hs[h]), t[h])
  }

  lemma MirrorsSeenTimes(t: map<string, Entry>, hs: map<string, seq<Sighting>>)
    requires Mirrors(t, hs)
    ensures SeenTimes(t) == Latest(hs)
  {
    forall h | h in t
      ensures LastSeen(t[h]) == Latest(hs)[h]
    {
      FullHasOccurrences(hs[h]);
      SameLastSeen(Full(hs[h]), t[h]);
    }
  }

  lemma MirrorsOnly(t: map<string, Entry>, hs: map<string, seq<Sighting>>, gone: set<string>)
    requires Mirrors(t, hs)
    ensures Mirrors(t - gone, Only(hs, t.Keys - gone))
  {
    hide Full, Bounds;
  }

  lemma MirrorsGrown(t: map<string, Entry>, hs: map<string, seq<Sighting>>, h: string, x: Sighting, e: Entry)
    requires Mirrors(t, hs)
    requires Bounds(Full(Grown(hs, h, x)[h]), e)
    ensures Mirrors(t[h := e], Grown(hs, h, x))
  {
    hide Full, Bounds;
  }

  /** The `n` keys seen longest ago. */
  method Oldest(times: map<string, int>, n: nat) returns (oldest: set<string>, ghost cut: map<string, int>)
    requires n <= |times|
    ensures oldest == cut.Keys && oldest <= times.Keys && IsEarliest(times, n, cut)
  {
    var ordered := SortKeys(times);
    oldest := Elements(ordered[..n]);
    PrefixIsEarliest(times, ordered, n);
    cut := map k | k in ordered[..n] :: times[k];
    assert cut.Keys == oldest;
  }

  /** The templates `_prune` pops. */
  method Prunable(t: map<string, Entry>, now: int) returns (gone: set<string>)
    ensures gone <= t.Keys && Survive(SeenTimes(t), now, t.Keys - gone)
  {
    hide LastSeen, Survive, IsEarliest;
    gone := set h | h in t && now - LastSeen(t[h]) > IDLE_MAX_MS;
    var live := t - gone;
    assert live.Keys == t.Keys - gone;
    assert live.Keys == Live(SeenTimes(t), now);
    if |live| > ENTRIES_MAX {
      var times := SeenTimes(live);
      assert times.Keys == live.Keys;
      var oldest, cut := Oldest(times, |live| - ENTRIES_MAX);
      DropEarliest(SeenTimes(t), now, times, cut, live.Keys - oldest);
      assert t.Keys - (gone + oldest) == live.Keys - oldest;
      gone := gone + oldest;
    } else {
      KeepLive(SeenTimes(t), now);
    }
  }

  /** The template rule is off, does not apply to this prompt, or gave a verdict. */
  datatype Classification = RuleOff | NotEligible | Judged(scheduled: bool)

  class Tracker {
    var templates: map<string, Entry>
    /** For each tracked template, every sighting accepted since its entry was created. */
    ghost var histories: map<string, seq<Sighting>>

    ghost predicate Valid()
      reads this
    {
      Mirrors(templates, histories)
    }

    constructor ()
      ensures Valid() && templates == map[]
    {
      templates, histories := map[], map[];
    }

    /** `record_occurrence`: refused, and nothing changes, for a prompt id still in the ring. */
    method RecordOccurrence(h: string, ts: int, pid: string, prefix: string, now: Option<int>) returns (accepted: bool)
      requires Valid()
      modifies this
      ensures Valid()
      ensures accepted <==> !InRing(old(templates), h, pid)
      ensures h !in old(histories) ==> accepted
      ensures h in old(histories) ==>
        (accepted <==> forall o :: o in Newest(Full(old(histories)[h]).occ, 16) ==> o.pid != pid)
      ensures !accepted ==> templates == old(templates) && histories == old(histories)
      ensures var grown := Grown(old(histories), h, Sighting(ts, pid, SessionKey(prefix)));
        accepted ==>
          && histories == Only(grown, templates.Keys)
          && Survive(Latest(grown), if now.Some? then now.value else ts, templates.Keys)
    {
      var x := Sighting(ts, pid, SessionKey(prefix));
      var entry := if h in templates then templates[h] else Entry(ts, [], map[]);
      if exists o :: o in entry.occ && o.pid == pid { return false; }
      Append(h, entry, x);
      Prune(if now.Some? then now.value else ts);
      accepted := true;
    }

    /** The accepted part: ring, sessions and `first_seen` updated, ghost history grown. */
    method Append(h: string, entry: Entry, x: Sighting)
      requires Valid()
      requires entry == if h in templates then templates[h] else Entry(x.ts, [], map[])
      modifies this
      ensures Valid()
      ensures histories == Grown(old(histories), h, x)
    {
      var occ := AppendByTime(entry.occ, Occ(x.ts, x.pid));
      occ := Newest(occ, RING_MAX);
      var sessions := CutSessions(Touch(entry.sessions, x.key, x.ts));
      var entry' := Entry(Min(entry.firstSeen, x.ts), occ, sessions);
      if h in templates {
        RecordBounds(histories[h], entry, x, entry');
      } else {
        FirstBounds(x, entry');
      }
      MirrorsGrown(templates, histories, h, x, entry');
      hide Mirrors;
      templates := templates[h := entry'];
      histories := Grown(histories, h, x);
    }

    /**
     * `classify_prompt_with_templates` for a prompt with template hash `h`: judged on
     * what came before, then recorded. For a new prompt id, later than everything in
     * the history, the answer is the one unbounded memory would give.
     */
    method Classify(h: string, eligible: bool, at: Option<int>, pid: Option<string>, sessionKey: string, record: bool)
      returns (c: Classification)
      requires Valid()
      modifies this
      ensures Valid()
      ensures c == RuleOff <==> at.None? || pid.None?
      ensures c.Judged? <==> at.Some? && pid.Some? && eligible
      ensures c.Judged? && c.scheduled ==> h in old(histories)
      ensures c.Judged? && h in old(histories) ==>
        var hist := old(histories)[h];
        FreshPids(hist) && Later(hist, at.value) && !Mentions(hist, pid.value) ==>
          (c.scheduled <==> Verdict(Full(hist), at.value, pid.value)) && (c.scheduled <==> Scheduled(hist, at.value))
      ensures c.Judged? && record && !InRing(old(templates), h, pid.value) ==>
        var grown := Grown(old(histories), h, Sighting(at.value, pid.value, SessionKey(Clip(sessionKey))));
        histories == Only(grown, templates.Keys) && Survive(Latest(grown), at.value, templates.Keys)
      ensures !c.Judged? || !record || InRing(old(templates), h, pid.value) ==>
        templates == old(templates) && histories == old(histories)
    {
      if at.None? || pid.None? { return RuleOff; }
      if !eligible { return NotEligible; }
      var entry := if h in templates then Some(templates[h]) else None;
      var sched := IsScheduledTemplate(entry, at.value, pid.value);
      if h in templates && FreshPids(histories[h]) && Later(histories[h], at.value)
          && !Mentions(histories[h], pid.value) {
        FreshPromptSameVerdict(histories[h], templates[h], at.value, pid.value);
        NewPromptVerdict(histories[h], at.value, pid.value);
      }
      if record {
        var _ := RecordOccurrence(h, at.value, pid.value, Clip(sessionKey), at);
      }
      c := Judged(sched);
    }

    /** `_prune`: idle templates go, then the longest unseen until `ENTRIES_MAX` are left. */
    method Prune(now: int)
      requires Valid()
      modifies this
      ensures Valid()
      ensures histories == Only(old(histories), templates.Keys)
      ensures Survive(Latest(old(histories)), now, templates.Keys)
      ensures Pruned(Latest(old(histories)), now, templates.Keys)
    {
      MirrorsSeenTimes(templates, histories);
      var gone := Prunable(templates, now);
      MirrorsOnly(templates, histories, gone);
      hide Mirrors, Survive;
      assert (templates - gone).Keys == templates.Keys - gone;
      templates := templates - gone;
      SurvivorsArePruned(Latest(histories), now, templates.Keys);
      hide Pruned;
      histories := Only(histories, templates.Keys);
    }
  }

  lemma KeepLive(seen: map<string, int>, now: int)
    requires |Live(seen, now)| <= ENTRIES_MAX
    ensures Survive(seen, now, Live(seen, now))
  {
  }

  lemma FirstBounds(x: Sighting, e: Entry)
    requires e.firstSeen == x.ts && e.occ == Newest(Insert([], Occ(x.ts, x.pid)), RING_MAX)
    requires IsEarliest(Touch(map[], x.key, x.ts), SESSIONS_MAX, e.sessions)
    ensures Bounds(Full([x]), e)
  {
    assert Touch(map[], x.key, x.ts) == map[x.key := x.ts];
  }

  lemma DropEarliest(seen: map<string, int>, now: int, times: map<string, int>, oldest: map<string, int>,
        kept: set<string>)
    requires times.Keys == Live(seen, now) && forall k :: k in times ==> times[k] == seen[k]
    requires |times| > ENTRIES_MAX && IsEarliest(times, |times| - ENTRIES_MAX, oldest)
    requires kept == times.Keys - oldest.Keys
    ensures Survive(seen, now, kept)
  {
    assert times.Keys == kept + oldest.Keys;
    forall k, d | k in kept && d in Live(seen, now) && d !in kept
      ensures Before(seen, d, k)
    {
      assert Before(times, d, k);
    }
  }
}
