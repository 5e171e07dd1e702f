/** The idle scheduler: which pass a tick runs, and why every overdue pass gets its turn. */
module IdleScheduler {
  import opened Prelude
  import opened Ordering

  const DEFAULT_IDLE_SECONDS: int := 300
  const DEFAULT_INTERVAL_SECONDS: int := 24 * 3600

  /** `afm_loop_schedule`; settings that are left out take their defaults. */
  datatype Schedule = Schedule(enabled: bool, idleSeconds: Option<int>, passes: map<string, Option<int>>)

  function GetOr(o: Option<int>, default: int): int {
    if o.Some? then o.value else default
  }

  function Interval(c: Schedule, name: string): (seconds: int)
    requires name in c.passes
    ensures match c.passes[name] case Some(own) => seconds == own case None => seconds == 86400
  {
    GetOr(c.passes[name], DEFAULT_INTERVAL_SECONDS)
  }

  function LastRun(runs: map<string, int>, name: string): int {
    if name in runs then runs[name] else 0
  }

  /** When a pass falls due. */
  function Deadline(c: Schedule, runs: map<string, int>, name: string): int
    requires name in c.passes
  {
    LastRun(runs, name) + Interval(c, name)
  }

  /** The pass picked at `now`: due, none due earlier, and among equals the last name in string order. */
  ghost predicate Picked(c: Schedule, runs: map<string, int>, now: int, name: string) {
    && name in c.passes && Deadline(c, runs, name) <= now
    && forall m :: m in c.passes && m != name && Deadline(c, runs, m) <= now ==>
         Deadline(c, runs, name) < Deadline(c, runs, m)
         || (Deadline(c, runs, name) == Deadline(c, runs, m) && StrLess(m, name))
  }

  ghost predicate NothingDue(c: Schedule, runs: map<string, int>, now: int) {
    forall m :: m in c.passes ==> Deadline(c, runs, m) > now
  }

  /** At most one pass can be picked. */
  lemma PickedIsUnique(c: Schedule, runs: map<string, int>, now: int, a: string, b: string)
    requires Picked(c, runs, now, a) && Picked(c, runs, now, b)
    ensures a == b
  {
    if a != b && StrLess(a, b) && StrLess(b, a) {
      StrLessTransitive(a, b, a);
      StrLessIrreflexive(a);
    }
  }

  /** One tick: whether it may run anything, its two clock readings, and the pass it ran. */
  datatype Tick = Ticked(free: bool, now: int, done: int, ran: Option<string>)

  /** What a tick does: nothing unless free, else the pick; an empty name counts as no pick. */
  ghost predicate IsTick(c: Schedule, runs: map<string, int>, t: Tick) {
    match t.ran
    case Some(name) => t.free && name != "" && Picked(c, runs, t.now, name)
    case None => t.free ==> NothingDue(c, runs, t.now) || Picked(c, runs, t.now, "")
  }

  /** The completion times after a tick whose pass, if it ran one, returned. */
  function Noted(runs: map<string, int>, t: Tick): map<string, int> {
    if t.ran.Some? then runs[t.ran.value := t.done] else runs
  }

  datatype Overdue = Overdue(seconds: int, name: string)

  predicate LessOverdue(a: Overdue, b: Overdue) {
    a.seconds < b.seconds || (a.seconds == b.seconds && StrLess(a.name, b.name))
  }

  class Scheduler {
    const config: Schedule
    var lastActivity: int
    var longRunningOps: int
    var lastRun: map<string, int>

    constructor (config: Schedule, now: int)
      ensures this.config == config && lastActivity == now && longRunningOps == 0 && lastRun == map[]
    {
      this.config := config;
      lastActivity, longRunningOps, lastRun := now, 0, map[];
    }

    method MarkActivity(now: int)
      modifies `lastActivity
      ensures lastActivity == now
    {
      lastActivity := now;
    }

    method BeginLongOp()
      modifies `longRunningOps
      ensures longRunningOps == old(longRunningOps) + 1
    {
      longRunningOps := longRunningOps + 1;
    }

    method EndLongOp()
      modifies `longRunningOps
      ensures longRunningOps == if old(longRunningOps) > 0 then old(longRunningOps) - 1 else 0
    {
      longRunningOps := if longRunningOps - 1 > 0 then longRunningOps - 1 else 0;
    }

    /** Disabled, not idle for long enough at the first clock reading, or a long operation under way. */
    predicate Blocked(idleNow: int)
      reads this
    {
      !config.enabled || idleNow - lastActivity < GetOr(config.idleSeconds, DEFAULT_IDLE_SECONDS) || longRunningOps > 0
    }

    /** How long a pass has been due: its last completion, or 0, and its interval, or a day, have gone by. */
    ghost function OverdueBy(now: int, name: string): int
      requires name in config.passes
      reads this
    {
      now - (if name in lastRun then lastRun[name] else 0)
          - match config.passes[name] case Some(seconds) => seconds case None => 86400
    }

    /**
     `due_pass`, which reads the clock twice: for the idle test and for the passes. Only with the loop on, no long
     operation open and the idle time gone by is a pass named, and then the one overdue longest, by (time, name).
     */
    method DuePass(idleNow: int, now: int) returns (due: Option<string>)
      ensures Blocked(idleNow) ==> due == None
      ensures due.Some? ==> config.enabled && longRunningOps <= 0
      ensures due.Some? ==>
        idleNow - lastActivity >= match config.idleSeconds case Some(seconds) => seconds case None => 300
      ensures due.Some? ==> due.value in config.passes && OverdueBy(now, due.value) >= 0
      ensures due.Some? ==> forall m :: m in config.passes && m != due.value ==>
        OverdueBy(now, m) < OverdueBy(now, due.value)
        || (OverdueBy(now, m) == OverdueBy(now, due.value) && StrLess(m, due.value))
      ensures config.enabled && longRunningOps <= 0 && due.None? ==>
        idleNow - lastActivity < (match config.idleSeconds case Some(seconds) => seconds case None => 300)
        || forall m :: m in config.passes ==> OverdueBy(now, m) < 0
      ensures !Blocked(idleNow) && due.None? ==> NothingDue(config, lastRun, now)
      ensures due.Some? ==> Picked(config, lastRun, now, due.value)
    {
      if Blocked(idleNow) { return None; }
      var overdue := CollectOverdue(now);
      if overdue == [] { return None; }
      var first := MostOverdue(overdue);
      PickFromList(config, lastRun, now, overdue, first);
      return Some(first.name);
    }

    /** The loop over the configured passes, in whatever order the dictionary gives them. */
    method CollectOverdue(now: int) returns (overdue: seq<Overdue>)
      ensures forall o :: o in overdue ==> o.name in config.passes
      ensures forall o :: o in overdue ==> o.seconds == now - Deadline(config, lastRun, o.name) && o.seconds >= 0
      ensures forall m :: m in config.passes && Deadline(config, lastRun, m) <= now ==>
                Overdue(now - Deadline(config, lastRun, m), m) in overdue
    {
      overdue := [];
      var todo := config.passes.Keys;
      while todo != {}
        invariant todo <= config.passes.Keys
        invariant forall o :: o in overdue ==> o.name in config.passes
        invariant forall o :: o in overdue ==> o.seconds == now - Deadline(config, lastRun, o.name) && o.seconds >= 0
        invariant forall m :: m in config.passes && m !in todo && Deadline(config, lastRun, m) <= now ==>
                    Overdue(now - Deadline(config, lastRun, m), m) in overdue
        decreases |todo|
      {
        var name := Any(todo);
        todo := todo - {name};
        var interval, last := Interval(config, name), LastRun(lastRun, name);
        if now - last >= interval {
          overdue := overdue + [Overdue(now - last - interval, name)];
        }
      }
    }

    /**
     * `tick`: picks a pass, runs it and notes when it finished; `returns` is false when
     * the pass raised, which leaves everything as it was. An empty name counts as no pass.
     */
    method Tick(idleNow: int, now: int, done: int, completes: bool) returns (ran: Option<string>)
      modifies `lastRun
      ensures ran.Some? ==> config.enabled && longRunningOps <= 0 && ran.value != "" && ran.value in config.passes
      ensures ran.Some? ==>
        idleNow - lastActivity >= match config.idleSeconds case Some(seconds) => seconds case None => 300
      ensures ran.Some? ==> old(OverdueBy(now, ran.value)) >= 0
      ensures config.enabled && longRunningOps <= 0 && ran.None? ==>
        idleNow - lastActivity < (match config.idleSeconds case Some(seconds) => seconds case None => 300)
        || "" in config.passes || forall m :: m in config.passes ==> old(OverdueBy(now, m)) < 0
      ensures lastRun == if ran.Some? && completes then old(lastRun)[ran.value := done] else old(lastRun)
      ensures IsTick(config, old(lastRun), Ticked(!Blocked(idleNow), now, done, ran))
      ensures lastRun == if completes then Noted(old(lastRun), Ticked(!Blocked(idleNow), now, done, ran))
                         else old(lastRun)
    {
      var name := DuePass(idleNow, now);
      if name.None? || name.value == "" { return None; }
      ran := name;
      if completes { lastRun := lastRun[name.value := done]; }
    }
  }

  /** The head of the list sorted in descending order. */
  method MostOverdue(overdue: seq<Overdue>) returns (first: Overdue)
    requires overdue != []
    ensures first in overdue && forall o :: o in overdue ==> o == first || LessOverdue(o, first)
  {
    first := overdue[0];
    for i := 1 to |overdue|
      invariant first in overdue
      invariant forall k :: 0 <= k < i ==> overdue[k] == first || LessOverdue(overdue[k], first)
    {
      var o := overdue[i];
      OverdueIsTotal(o, first);
      if LessOverdue(first, o) {
        forall k | 0 <= k < i
          ensures overdue[k] == o || LessOverdue(overdue[k], o)
        {
          OverdueIsTransitive(overdue[k], first, o);
        }
        first := o;
      }
    }
  }

  lemma OverdueIsTotal(a: Overdue, b: Overdue)
    ensures LessOverdue(a, b) || a == b || LessOverdue(b, a)
  {
    StrLessTotal(a.name, b.name);
  }

  lemma OverdueIsTransitive(a: Overdue, b: Overdue, c: Overdue)
    ensures LessOverdue(a, b) && LessOverdue(b, c) ==> LessOverdue(a, c)
  {
    if LessOverdue(a, b) && LessOverdue(b, c) && a.seconds == b.seconds == c.seconds {
      StrLessTransitive(a.name, b.name, c.name);
    }
  }

  lemma PickFromList(c: Schedule, runs: map<string, int>, now: int, overdue: seq<Overdue>, first: Overdue)
    requires forall o :: o in overdue ==> o.name in c.passes
    requires forall o :: o in overdue ==> o.seconds == now - Deadline(c, runs, o.name) && o.seconds >= 0
    requires forall m :: m in c.passes && Deadline(c, runs, m) <= now ==>
              Overdue(now - Deadline(c, runs, m), m) in overdue
    requires first in overdue && forall o :: o in overdue ==> o == first || LessOverdue(o, first)
    ensures Picked(c, runs, now, first.name)
  {
    hide StrLess;
    forall m | m in c.passes && m != first.name && Deadline(c, runs, m) <= now
      ensures Deadline(c, runs, first.name) < Deadline(c, runs, m)
              || (Deadline(c, runs, first.name) == Deadline(c, runs, m) && StrLess(m, first.name))
    {
      assert LessOverdue(Overdue(now - Deadline(c, runs, m), m), first);
    }
  }

  // ---------- runs ----------

  /** A tick that ran something: when it picked, what, and when that was done. */
  datatype Turn = Turn(now: int, name: string, done: int)

  /** The completion times after the first `n` turns. */
  ghost function After(runs: map<string, int>, turns: seq<Turn>, n: nat): map<string, int>
    requires n <= |turns|
  {
    if n == 0 then runs else After(runs, turns, n - 1)[turns[n - 1].name := turns[n - 1].done]
  }

  /** The turns of one run with a clock that never goes back; ticks that run nothing change nothing and are left out. */
  ghost predicate IsRun(c: Schedule, runs: map<string, int>, turns: seq<Turn>) {
    && (forall i :: 0 <= i < |turns| ==> Picked(c, After(runs, turns, i), turns[i].now, turns[i].name))
    && ClockForward(turns)
  }

  ghost predicate ClockForward(turns: seq<Turn>) {
    && (forall i :: 0 <= i < |turns| ==> turns[i].now <= turns[i].done)
    && forall i, k :: 0 <= i < k < |turns| ==> turns[i].done <= turns[k].now
  }

  ghost predicate PositiveIntervals(c: Schedule) {
    forall m :: m in c.passes ==> Interval(c, m) > 0
  }

  /** A pass not run between two points keeps its completion time. */
  lemma {:induction false} NotRunSince(runs: map<string, int>, turns: seq<Turn>, i: nat, k: nat, name: string)
    requires i <= k <= |turns| && forall j :: i <= j < k ==> turns[j].name != name
    ensures LastRun(After(runs, turns, k), name) == LastRun(After(runs, turns, i), name)
  {
    if i < k { NotRunSince(runs, turns, i, k - 1, name); }
  }

  /** Once run, a pass was last done no earlier than that. */
  lemma {:induction false} DoneSince(runs: map<string, int>, turns: seq<Turn>, i: nat, k: nat)
    requires ClockForward(turns) && i < k <= |turns|
    ensures LastRun(After(runs, turns, k), turns[i].name) >= turns[i].done
  {
    var was := After(runs, turns, k - 1);
    assert After(runs, turns, k) == was[turns[k - 1].name := turns[k - 1].done];
    if k > i + 1 {
      DoneSince(runs, turns, i, k - 1);
      assert turns[i].done <= turns[k - 1].now <= turns[k - 1].done;
    }
    hide After;
  }

  /** Two starts of one pass are at least its interval apart, counted from the earlier completion. */
  lemma StartsAreSpaced(c: Schedule, runs: map<string, int>, turns: seq<Turn>, i: nat, k: nat)
    requires IsRun(c, runs, turns) && i < k < |turns| && turns[i].name == turns[k].name
    ensures turns[k].now - turns[i].done >= Interval(c, turns[k].name)
  {
    DoneSince(runs, turns, i, k);
    assert Picked(c, After(runs, turns, k), turns[k].now, turns[k].name);
  }

  /** While an overdue pass waits, no other pass is picked twice. */
  lemma PickedOnceWhileWaiting(c: Schedule, runs: map<string, int>, turns: seq<Turn>, p: string, i: nat, k: nat)
    requires IsRun(c, runs, turns) && PositiveIntervals(c) && i < k < |turns|
    requires p in c.passes && Deadline(c, runs, p) <= turns[0].now
    requires forall j :: 0 <= j <= k ==> turns[j].name != p
    ensures turns[i].name != turns[k].name
  {
    var q := turns[k].name;
    assert Picked(c, After(runs, turns, k), turns[k].now, q);
    NotRunSince(runs, turns, 0, k, p);
    assert turns[0].now <= turns[i].done <= turns[k].now;
    assert Deadline(c, After(runs, turns, k), q) <= Deadline(c, After(runs, turns, k), p) <= turns[0].now;
    if turns[i].name == q { DoneSince(runs, turns, i, k); }
  }

  lemma {:induction false} DistinctNames(turns: seq<Turn>, n: nat, names: set<string>)
    requires n <= |turns| && forall i, k :: 0 <= i < k < n ==> turns[i].name != turns[k].name
    requires forall i :: 0 <= i < n ==> turns[i].name in names
    ensures n <= |names|
  {
    if n > 0 {
      DistinctNames(turns, n - 1, names - {turns[n - 1].name});
    }
  }

  /**
   No starvation: a pass that is overdue when a tick runs something is run within as many turns as
   there are passes.
   */
  lemma NoStarvation(c: Schedule, runs: map<string, int>, turns: seq<Turn>, p: string)
    requires IsRun(c, runs, turns) && PositiveIntervals(c) && |turns| >= |c.passes|
    requires p in c.passes && Deadline(c, runs, p) <= turns[0].now
    ensures exists i :: 0 <= i < |c.passes| && turns[i].name == p
  {
    var n := |c.passes|;
    if forall i :: 0 <= i < n ==> turns[i].name != p {
      forall i, k | 0 <= i < k < n
        ensures turns[i].name != turns[k].name
      {
        PickedOnceWhileWaiting(c, runs, turns, p, i, k);
      }
      forall i | 0 <= i < n
        ensures turns[i].name in c.passes.Keys - {p}
      {
        assert Picked(c, After(runs, turns, i), turns[i].now, turns[i].name);
      }
      DistinctNames(turns, n, c.passes.Keys - {p});
      assert false;
    }
  }

  // ---------- runs of ticks ----------

  /** The completion times after the first `n` ticks. */
  ghost function AfterTicks(runs: map<string, int>, ticks: seq<Tick>, n: nat): map<string, int>
    requires n <= |ticks|
  {
    if n == 0 then runs else Noted(AfterTicks(runs, ticks, n - 1), ticks[n - 1])
  }

  /** A run of ticks, free or not, on a clock that does not go back, whose passes return. */
  ghost predicate IsTickRun(c: Schedule, runs: map<string, int>, ticks: seq<Tick>) {
    && (forall i :: 0 <= i < |ticks| ==>
          IsTick(c, AfterTicks(runs, ticks, i), ticks[i]) && ticks[i].now <= ticks[i].done)
    && forall i, k :: 0 <= i < k < |ticks| ==> ticks[i].done <= ticks[k].now
  }

  /** A free tick with something due that runs nothing. */
  ghost predicate Stalled(c: Schedule, runs: map<string, int>, ticks: seq<Tick>, i: nat)
    requires i < |ticks|
  {
    ticks[i].free && !NothingDue(c, AfterTicks(runs, ticks, i), ticks[i].now) && ticks[i].ran.None?
  }

  function FreeTicks(ticks: seq<Tick>, n: nat): nat
    requires n <= |ticks|
  {
    if n == 0 then 0 else FreeTicks(ticks, n - 1) + if ticks[n - 1].free then 1 else 0
  }

  /** The turns among the first `n` ticks. */
  ghost function Turns(ticks: seq<Tick>, n: nat): seq<Turn>
    requires n <= |ticks|
  {
    if n == 0 then []
    else
      var before, t := Turns(ticks, n - 1), ticks[n - 1];
      if t.ran.Some? then before + [Turn(t.now, t.ran.value, t.done)] else before
  }

  lemma {:induction false} AfterSame(runs: map<string, int>, turns: seq<Turn>, x: Turn, n: nat)
    requires n <= |turns|
    ensures After(runs, turns + [x], n) == After(runs, turns, n)
  {
    if n > 0 { AfterSame(runs, turns, x, n - 1); }
  }

  lemma AfterLast(runs: map<string, int>, turns: seq<Turn>, x: Turn)
    ensures After(runs, turns + [x], |turns| + 1) == After(runs, turns, |turns|)[x.name := x.done]
  {
    AfterSame(runs, turns, x, |turns|);
  }

  lemma AppendTurn(c: Schedule, runs: map<string, int>, turns: seq<Turn>, x: Turn)
    requires IsRun(c, runs, turns) && Picked(c, After(runs, turns, |turns|), x.now, x.name) && x.now <= x.done
    requires forall i :: 0 <= i < |turns| ==> turns[i].done <= x.now
    ensures IsRun(c, runs, turns + [x])
    ensures After(runs, turns + [x], |turns| + 1) == After(runs, turns, |turns|)[x.name := x.done]
  {
    var more := turns + [x];
    AfterLast(runs, turns, x);
    hide Picked, After;
    forall i | 0 <= i < |more|
      ensures Picked(c, After(runs, more, i), more[i].now, more[i].name)
    {
      AfterSame(runs, turns, x, i);
    }
  }

  lemma {:induction false} TurnsHold(ticks: seq<Tick>, n: nat)
    requires n <= |ticks|
    ensures forall x :: x in Turns(ticks, n) ==>
              exists i :: 0 <= i < n && ticks[i].ran == Some(x.name) && x.now == ticks[i].now && x.done == ticks[i].done
  {
    if n > 0 { TurnsHold(ticks, n - 1); }
  }

  lemma TickOf(c: Schedule, runs: map<string, int>, ticks: seq<Tick>, i: nat)
    requires IsTickRun(c, runs, ticks) && i < |ticks|
    ensures IsTick(c, AfterTicks(runs, ticks, i), ticks[i]) && ticks[i].now <= ticks[i].done
    ensures AfterTicks(runs, ticks, i + 1) == Noted(AfterTicks(runs, ticks, i), ticks[i])
    ensures forall k :: 0 <= k < i ==> ticks[k].done <= ticks[i].now
  {
    hide AfterTicks;
    assert IsTick(c, AfterTicks(runs, ticks, i), ticks[i]);
    AfterTicksStep(runs, ticks, i);
  }

  lemma AfterTicksStep(runs: map<string, int>, ticks: seq<Tick>, i: nat)
    requires i < |ticks|
    ensures AfterTicks(runs, ticks, i + 1) == Noted(AfterTicks(runs, ticks, i), ticks[i])
  {
  }

  lemma TurnsStep(ticks: seq<Tick>, i: nat)
    requires i < |ticks|
    ensures Turns(ticks, i + 1)
            == Turns(ticks, i)
               + if ticks[i].ran.Some? then [Turn(ticks[i].now, ticks[i].ran.value, ticks[i].done)] else []
  {
  }

  /** Leaving out the ticks that run nothing changes nothing. */
  lemma {:induction false} TurnsAreRun(c: Schedule, runs: map<string, int>, ticks: seq<Tick>, n: nat)
    requires IsTickRun(c, runs, ticks) && n <= |ticks|
    ensures IsRun(c, runs, Turns(ticks, n))
    ensures After(runs, Turns(ticks, n), |Turns(ticks, n)|) == AfterTicks(runs, ticks, n)
  {
    hide *;
    if n == 0 {
      NoTurns(c, runs, ticks);
    } else {
      TurnsAreRun(c, runs, ticks, n - 1);
      OneMoreTick(c, runs, ticks, n - 1);
    }
  }

  lemma NoTurns(c: Schedule, runs: map<string, int>, ticks: seq<Tick>)
    ensures IsRun(c, runs, Turns(ticks, 0))
    ensures After(runs, Turns(ticks, 0), |Turns(ticks, 0)|) == AfterTicks(runs, ticks, 0)
  {
  }

  lemma OneMoreTick(c: Schedule, runs: map<string, int>, ticks: seq<Tick>, n: nat)
    requires IsTickRun(c, runs, ticks) && n < |ticks|
    requires IsRun(c, runs, Turns(ticks, n))
    requires After(runs, Turns(ticks, n), |Turns(ticks, n)|) == AfterTicks(runs, ticks, n)
    ensures IsRun(c, runs, Turns(ticks, n + 1))
    ensures After(runs, Turns(ticks, n + 1), |Turns(ticks, n + 1)|) == AfterTicks(runs, ticks, n + 1)
  {
    hide AfterTicks, After, Turns, IsRun, Picked, IsTickRun;
    var before, t := Turns(ticks, n), ticks[n];
    TurnsStep(ticks, n);
    TickOf(c, runs, ticks, n);
    TurnsHold(ticks, n);
    if t.ran.Some? {
      forall i | 0 <= i < |before|
        ensures before[i].done <= t.now
      {
        assert before[i] in before;
      }
      AppendTurn(c, runs, before, Turn(t.now, t.ran.value, t.done));
    } else {
      assert before + [] == before;
    }
  }

  lemma {:induction false} NotRunInTicks(runs: map<string, int>, ticks: seq<Tick>, k: nat, name: string)
    requires k <= |ticks| && forall j :: 0 <= j < k ==> ticks[j].ran != Some(name)
    ensures LastRun(AfterTicks(runs, ticks, k), name) == LastRun(runs, name)
  {
    if k > 0 { NotRunInTicks(runs, ticks, k - 1, name); }
  }

  /** While a pass waits, every free tick that does not stall is a turn. */
  lemma {:induction false} FreeTicksAreTurns(c: Schedule, runs: map<string, int>, ticks: seq<Tick>, n: nat, p: string)
    requires IsTickRun(c, runs, ticks) && n <= |ticks|
    requires p in c.passes && (n > 0 ==> Deadline(c, runs, p) <= ticks[0].now)
    requires forall i :: 0 <= i < n ==> ticks[i].ran != Some(p) && !Stalled(c, runs, ticks, i)
    ensures |Turns(ticks, n)| >= FreeTicks(ticks, n)
  {
    if n > 0 {
      FreeTicksAreTurns(c, runs, ticks, n - 1, p);
      NotRunInTicks(runs, ticks, n - 1, p);
      assert ticks[0].now <= ticks[n - 1].now;
      assert Deadline(c, AfterTicks(runs, ticks, n - 1), p) <= ticks[n - 1].now;
      assert !Stalled(c, runs, ticks, n - 1);
    }
  }

  lemma TurnsMiss(c: Schedule, runs: map<string, int>, ticks: seq<Tick>, n: nat, p: string)
    requires IsTickRun(c, runs, ticks) && n <= |ticks| && forall i :: 0 <= i < n ==> ticks[i].ran != Some(p)
    ensures forall k :: 0 <= k < |Turns(ticks, n)| ==>
              Turns(ticks, n)[k].name != p && ticks[0].now <= Turns(ticks, n)[k].now
  {
    TurnsHold(ticks, n);
    forall k | 0 <= k < |Turns(ticks, n)|
      ensures Turns(ticks, n)[k].name != p && ticks[0].now <= Turns(ticks, n)[k].now
    {
      var x := Turns(ticks, n)[k];
      assert x in Turns(ticks, n);
      var i :| 0 <= i < n && ticks[i].ran == Some(x.name) && x.now == ticks[i].now && x.done == ticks[i].done;
      assert i == 0 || ticks[0].done <= ticks[i].now;
    }
  }

  /** An overdue pass is run within as many free ticks as there are passes, unless one of them stalls. */
  lemma RunsUnlessStalled(c: Schedule, runs: map<string, int>, ticks: seq<Tick>, n: nat, p: string)
    requires IsTickRun(c, runs, ticks) && PositiveIntervals(c) && n <= |ticks| && FreeTicks(ticks, n) >= |c.passes|
    requires p in c.passes && |ticks| > 0 && Deadline(c, runs, p) <= ticks[0].now
    requires forall i :: 0 <= i < n ==> !Stalled(c, runs, ticks, i)
    ensures exists i :: 0 <= i < n && ticks[i].ran == Some(p)
  {
    if forall i :: 0 <= i < n ==> ticks[i].ran != Some(p) {
      FreeTicksAreTurns(c, runs, ticks, n, p);
      TurnsAreRun(c, runs, ticks, n);
      TurnsMiss(c, runs, ticks, n, p);
      assert p in c.passes.Keys && |c.passes.Keys| == |c.passes|;
      hide Turns, IsTickRun, IsRun, PositiveIntervals, Stalled, FreeTicks;
      NoStarvation(c, runs, Turns(ticks, n), p);
    }
  }

  lemma {:induction false} FirstFree(ticks: seq<Tick>, n: nat, count: nat) returns (m: nat)
    requires n <= |ticks| && FreeTicks(ticks, n) >= count
    ensures m <= n && FreeTicks(ticks, m) == count
    ensures forall i :: 0 <= i < m ==> FreeTicks(ticks, i) < count
  {
    m := n;
    if n > 0 {
      if FreeTicks(ticks, n - 1) >= count {
        m := FirstFree(ticks, n - 1, count);
      } else {
        FewerBefore(ticks, n - 1);
      }
    }
  }

  lemma {:induction false} FewerBefore(ticks: seq<Tick>, n: nat)
    requires n <= |ticks|
    ensures forall i :: 0 <= i <= n ==> FreeTicks(ticks, i) <= FreeTicks(ticks, n)
  {
    if n > 0 { FewerBefore(ticks, n - 1); }
  }

  /**
   Where no pass has an empty name no free tick stalls, and every overdue pass is run within as many
   free ticks as there are passes.
   */
  lemma EveryPassIsServed(c: Schedule, runs: map<string, int>, ticks: seq<Tick>, p: string)
    requires IsTickRun(c, runs, ticks) && PositiveIntervals(c) && "" !in c.passes
    requires p in c.passes && |ticks| > 0 && Deadline(c, runs, p) <= ticks[0].now
    ensures forall i :: 0 <= i < |ticks| ==> !Stalled(c, runs, ticks, i)
    ensures FreeTicks(ticks, |ticks|) >= |c.passes| ==>
              exists i :: 0 <= i < |ticks| && ticks[i].ran == Some(p) && FreeTicks(ticks, i) < |c.passes|
  {
    NamedNeverStall(c, runs, ticks);
    if FreeTicks(ticks, |ticks|) >= |c.passes| {
      var m := FirstFree(ticks, |ticks|, |c.passes|);
      RunsUnlessStalled(c, runs, ticks, m, p);
    }
  }

  lemma NamedNeverStall(c: Schedule, runs: map<string, int>, ticks: seq<Tick>)
    requires IsTickRun(c, runs, ticks) && "" !in c.passes
    ensures forall i :: 0 <= i < |ticks| ==> !Stalled(c, runs, ticks, i)
  {
    forall i | 0 <= i < |ticks|
      ensures !Stalled(c, runs, ticks, i)
    {
      assert IsTick(c, AfterTicks(runs, ticks, i), ticks[i]);
    }
  }

  /** Once picked, an empty name stays the pick for ever, if nothing else is run. */
  lemma EmptyNameBlocks(c: Schedule, runs: map<string, int>, now: int, later: int)
    requires Picked(c, runs, now, "") && now <= later
    ensures Picked(c, runs, later, "")
  {
    forall m | m in c.passes && m != "" && Deadline(c, runs, m) <= later
      ensures Deadline(c, runs, "") < Deadline(c, runs, m)
    {
    }
  }

  /** ... and nothing else is: after a stalled tick no tick runs anything again. */
  lemma {:induction false} StalledForGood(c: Schedule, runs: map<string, int>, ticks: seq<Tick>, i: nat, k: nat)
    requires IsTickRun(c, runs, ticks) && i <= k < |ticks| && Stalled(c, runs, ticks, i)
    ensures ticks[k].ran.None? && AfterTicks(runs, ticks, k) == AfterTicks(runs, ticks, i)
    ensures Picked(c, AfterTicks(runs, ticks, k), ticks[k].now, "")
  {
    hide AfterTicks, IsTickRun, Picked;
    var state := AfterTicks(runs, ticks, k);
    TickOf(c, runs, ticks, k);
    if i < k {
      hide IsTick, Stalled;
      TickOf(c, runs, ticks, k - 1);
      StalledForGood(c, runs, ticks, i, k - 1);
      EmptyNameBlocks(c, AfterTicks(runs, ticks, k - 1), ticks[k - 1].now, ticks[k].now);
      EmptyPickRunsNothing(c, state, ticks[k]);
    }
  }

  lemma EmptyPickRunsNothing(c: Schedule, runs: map<string, int>, t: Tick)
    requires IsTick(c, runs, t) && Picked(c, runs, t.now, "")
    ensures t.ran.None?
  {
    if t.ran.Some? {
      PickedIsUnique(c, runs, t.now, "", t.ran.value);
    }
  }

  /** A pass with an empty name that is overdue stalls the scheduler for good within as many free ticks. */
  lemma EmptyNameStops(c: Schedule, runs: map<string, int>, ticks: seq<Tick>)
    requires IsTickRun(c, runs, ticks) && PositiveIntervals(c) && FreeTicks(ticks, |ticks|) >= |c.passes|
    requires "" in c.passes && |ticks| > 0 && Deadline(c, runs, "") <= ticks[0].now
    ensures exists i :: 0 <= i < |ticks| && Stalled(c, runs, ticks, i) && FreeTicks(ticks, i) < |c.passes|
                        && forall k :: i <= k < |ticks| ==> ticks[k].ran.None?
  {
    var m := FirstFree(ticks, |ticks|, |c.passes|);
    forall i | 0 <= i < |ticks|
      ensures ticks[i].ran != Some("")
    {
      assert IsTick(c, AfterTicks(runs, ticks, i), ticks[i]);
    }
    hide IsTickRun, PositiveIntervals, Stalled, FreeTicks;
    if forall i :: 0 <= i < m ==> !Stalled(c, runs, ticks, i) {
      RunsUnlessStalled(c, runs, ticks, m, "");
    } else {
      var i :| 0 <= i < m && Stalled(c, runs, ticks, i);
      forall k | i <= k < |ticks|
        ensures ticks[k].ran.None?
      {
        StalledForGood(c, runs, ticks, i, k);
      }
    }
  }

  // ---------- such a run exists ----------

  lemma {:induction false} BestOf(c: Schedule, runs: map<string, int>, names: set<string>) returns (b: string)
    requires names != {} && names <= c.passes.Keys
    ensures b in names
    ensures forall m :: m in names && m != b ==>
              Deadline(c, runs, b) < Deadline(c, runs, m)
              || (Deadline(c, runs, b) == Deadline(c, runs, m) && StrLess(m, b))
  {
    var n := AnyElement(names);
    b := n;
    if names != {n} {
      var best := BestOf(c, runs, names - {n});
      StrLessTotal(n, best);
      b := if Deadline(c, runs, n) < Deadline(c, runs, best)
              || (Deadline(c, runs, n) == Deadline(c, runs, best) && StrLess(best, n)) then n else best;
      forall m | m in names && m != b
        ensures Deadline(c, runs, b) < Deadline(c, runs, m)
                || (Deadline(c, runs, b) == Deadline(c, runs, m) && StrLess(m, b))
      {
        if m != n && m != best && b == n && StrLess(m, best) && StrLess(best, n) {
          StrLessTransitive(m, best, n);
        }
      }
    }
  }

  /** There is a pick whenever something is due. */
  lemma PickExists(c: Schedule, runs: map<string, int>, now: int) returns (name: string)
    requires !NothingDue(c, runs, now)
    ensures Picked(c, runs, now, name)
  {
    var names := set m | m in c.passes && Deadline(c, runs, m) <= now;
    var m :| m in c.passes && Deadline(c, runs, m) <= now;
    assert m in names;
    name := BestOf(c, runs, names);
    assert name in names;
  }

  lemma {:induction false} AfterPrefix(runs: map<string, int>, ticks: seq<Tick>, t: Tick, n: nat)
    requires n <= |ticks|
    ensures AfterTicks(runs, ticks + [t], n) == AfterTicks(runs, ticks, n)
    ensures FreeTicks(ticks + [t], n) == FreeTicks(ticks, n)
  {
    if n > 0 { AfterPrefix(runs, ticks, t, n - 1); }
  }

  lemma AppendTick(c: Schedule, runs: map<string, int>, ticks: seq<Tick>, t: Tick)
    requires IsTickRun(c, runs, ticks) && IsTick(c, AfterTicks(runs, ticks, |ticks|), t) && t.now <= t.done
    requires forall i :: 0 <= i < |ticks| ==> ticks[i].done <= t.now
    ensures IsTickRun(c, runs, ticks + [t])
  {
    var more := ticks + [t];
    hide IsTick, AfterTicks;
    forall i | 0 <= i < |more|
      ensures IsTick(c, AfterTicks(runs, more, i), more[i]) && more[i].now <= more[i].done
    {
      AfterPrefix(runs, ticks, t, i);
    }
  }

  /** A free tick at that moment. */
  lemma SomeTick(c: Schedule, runs: map<string, int>, now: int) returns (t: Tick)
    ensures IsTick(c, runs, t) && t.free && t.now == t.done == now
  {
    t := Ticked(true, now, now, None);
    if !NothingDue(c, runs, now) {
      var name := PickExists(c, runs, now);
      if name != "" { t := Ticked(true, now, now, Some(name)); }
    }
  }

  /** Free ticks, as many as wanted, all at one reading of the clock. */
  lemma {:induction false} SomeRun(c: Schedule, now: int, n: nat) returns (ticks: seq<Tick>)
    ensures |ticks| == n && IsTickRun(c, map[], ticks) && FreeTicks(ticks, n) == n
    ensures forall i :: 0 <= i < n ==> ticks[i].now == ticks[i].done == now
  {
    ticks := [];
    hide IsTick, AfterTicks;
    if n > 0 {
      var before := SomeRun(c, now, n - 1);
      var t := SomeTick(c, AfterTicks(map[], before, n - 1), now);
      AppendTick(c, map[], before, t);
      AfterPrefix(map[], before, t, n - 1);
      ticks := before + [t];
      hide IsTickRun;
    }
  }

  /** From a fresh start every free tick with something due runs something if and only if no pass has an empty name. */
  lemma ServesExactlyWhenNamed(c: Schedule)
    requires PositiveIntervals(c)
    ensures (forall ticks, i :: IsTickRun(c, map[], ticks) && 0 <= i < |ticks| ==> !Stalled(c, map[], ticks, i))
            <==> "" !in c.passes
  {
    if "" in c.passes {
      assert |c.passes.Keys| == |c.passes| > 0;
      var ticks := SomeRun(c, Interval(c, ""), |c.passes|);
      hide IsTickRun, Stalled, FreeTicks;
      EmptyNameStops(c, map[], ticks);
    } else {
      forall ticks, i | IsTickRun(c, map[], ticks) && 0 <= i < |ticks|
        ensures !Stalled(c, map[], ticks, i)
      {
        NamedNeverStall(c, map[], ticks);
      }
    }
  }
}
