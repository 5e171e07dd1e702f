/**
 The race between the expiry sweep and endorsement for one page.

 Sweepers decide on an unlocked read, then take the page's lock, read again and write; endorsers find
 the page unlocked, then do the same.  Another writer may edit the page while nobody holds its lock.
 */
module DraftStatus {
  import opened Prelude
  import opened Frontmatter
  import opened StatusLine

  type Actor = nat

  /** What the remaining frontmatter patterns read out of a block. */
  datatype Probes = Probes(afm: string -> bool, expiresAt: string -> Option<int>, pageId: string -> Option<string>)

  datatype Task = Sweep(now: int) | Endorse(status: string)

  /** An actor between its atomic steps. */
  datatype Pc = Start | Decided | Inside | Holding(text: string) | Leaving | Over
  {
    predicate HasLock() {
      Inside? || Holding? || Leaving?
    }
  }

  datatype Event = Expired(expiry: int, now: int) | Endorsed(status: string)

  datatype State = State(text: string, holder: Option<Actor>, pcs: map<Actor, Pc>, log: seq<Event>)

  /** The fixed parts: the page's id, who does what, and how blocks are read. */
  datatype World = World(probes: Probes, pageId: string, tasks: map<Actor, Task>)

  datatype Step =
    | Look(a: Actor) | Lock(a: Actor) | Reread(a: Actor) | Write(a: Actor) | Unlock(a: Actor) | Edit(text: string)

  // -------------------------------------------------------------------- one page

  /** The sweep's test of a page: fenced, a draft of the loop's, and past its own expiry. */
  predicate Expirable(probes: Probes, text: string, now: int) {
    Block(text).Some? &&
    var fm := Block(text).value;
    IsDraft(fm) && probes.afm(fm) && probes.expiresAt(fm).Some? && probes.expiresAt(fm).value < now
  }

  predicate Named(probes: Probes, text: string, pageId: string) {
    Block(text).Some? && probes.pageId(Block(text).value) == Some(pageId)
  }

  function Stamped(text: string, status: string): string
    requires Block(text).Some? && IsDraft(Block(text).value)
  {
    Restamp(Block(text).value, status) + Body(text)
  }

  /** What is written, read off the page. */
  lemma StampedIsRewritten(text: string, status: string)
    requires Block(text).Some? && IsDraft(Block(text).value) && IsVerdict(status)
    ensures Rewritten(text, Stamped(text, status), status)
  {
    RestampRewrites(text, status);
    hide Rewritten, Restamp, Block, Body;
  }

  /** Whether the actor, holding the lock and this text, rewrites the page. */
  predicate Proceeds(w: World, task: Task, text: string) {
    match task
    case Sweep(now) => Expirable(w.probes, text, now)
    case Endorse(_) => Named(w.probes, text, w.pageId) && IsDraft(Block(text).value)
  }

  function Verdict(task: Task): string {
    match task case Sweep(_) => "expired" case Endorse(status) => status
  }

  function EventOf(w: World, task: Task, text: string): Event
    requires Proceeds(w, task, text)
  {
    match task
    case Sweep(now) => Expired(w.probes.expiresAt(Block(text).value).value, now)
    case Endorse(status) => Endorsed(status)
  }

  // ------------------------------------------------------------------------ steps

  predicate Enabled(w: World, s: State, step: Step) {
    match step
    case Look(a) => a in w.tasks && a in s.pcs && s.pcs[a].Start?
    case Lock(a) => a in s.pcs && s.pcs[a].Decided? && s.holder.None?
    case Reread(a) => a in s.pcs && s.pcs[a].Inside?
    case Write(a) => a in w.tasks && a in s.pcs && s.pcs[a].Holding?
    case Unlock(a) => a in s.pcs && s.pcs[a].Leaving?
    case Edit(text) =>
      s.holder.None? && Named(w.probes, text, w.pageId)
      && (IsDraft(Block(text).value) ==>
            OneDraftLine(Block(text).value) && Block(s.text).Some? && IsDraft(Block(s.text).value))
  }

  function Next(w: World, s: State, step: Step): State
    requires Enabled(w, s, step)
  {
    match step
    case Look(a) =>
      var go := match w.tasks[a]
        case Sweep(now) => Expirable(w.probes, s.text, now)
        case Endorse(_) => Named(w.probes, s.text, w.pageId);
      s.(pcs := s.pcs[a := if go then Decided else Over])
    case Lock(a) => s.(holder := Some(a), pcs := s.pcs[a := Inside])
    case Reread(a) => s.(pcs := s.pcs[a := Holding(s.text)])
    case Write(a) =>
      var text := s.pcs[a].text;
      if Proceeds(w, w.tasks[a], text) then
        State(Stamped(text, Verdict(w.tasks[a])), s.holder, s.pcs[a := Leaving],
              s.log + [EventOf(w, w.tasks[a], text)])
      else s.(pcs := s.pcs[a := Leaving])
    case Unlock(a) => s.(holder := None, pcs := s.pcs[a := Over])
    case Edit(text) => s.(text := text)
  }

  // ---------------------------------------------------------------- what is kept

  /** The verdicts are the writer's own words; how blocks are read is left open, the page id with it:
      that pattern runs over a line end, so a status rewrite may change what it finds. */
  ghost predicate Sane(w: World) {
    forall a :: a in w.tasks && w.tasks[a].Endorse? ==>
      w.tasks[a].status in ["accepted", "rejected", "edit_requested"]
  }

  lemma VerdictsAreKnown(w: World, a: Actor)
    requires Sane(w) && a in w.tasks
    ensures IsVerdict(Verdict(w.tasks[a]))
  {
  }

  ghost predicate Inv(w: World, s: State) {
    && Block(s.text).Some?
    && (s.log == [] ==> Named(w.probes, s.text, w.pageId))
    && (IsDraft(Block(s.text).value) ==> OneDraftLine(Block(s.text).value) && s.log == [])
    && |s.log| <= 1
    && (forall a :: a in s.pcs ==> (s.pcs[a].HasLock() <==> s.holder == Some(a)))
    && (forall a :: a in s.pcs && s.pcs[a].Holding? ==> s.pcs[a].text == s.text)
    && (forall e :: e in s.log && e.Expired? ==> e.expiry < e.now)
  }

  lemma WriteKeeps(w: World, s: State, a: Actor)
    requires Sane(w) && Inv(w, s) && Enabled(w, s, Write(a))
    ensures Inv(w, Next(w, s, Write(a)))
  {
    hide Restamp, IsDraft, OneDraftLine, Block, Body, IsVerdict;
    var fm, task := Block(s.text).value, w.tasks[a];
    VerdictsAreKnown(w, a);
    assert s.pcs[a].text == s.text && s.holder == Some(a);
    if Proceeds(w, task, s.text) {
      RestampKeepsBlock(s.text, Verdict(task));
      RestampLeavesDraft(fm, Verdict(task));
      var t := Next(w, s, Write(a));
      assert Block(t.text) == Some(Restamp(fm, Verdict(task)));
      assert !IsDraft(Block(t.text).value);
      hide Proceeds, Stamped;
    }
  }

  lemma StepKeeps(w: World, s: State, step: Step)
    requires Sane(w) && Inv(w, s) && Enabled(w, s, step)
    ensures Inv(w, Next(w, s, step))
  {
    if step.Write? {
      WriteKeeps(w, s, step.a);
    }
    hide Restamp, IsDraft, OneDraftLine, Block, Body, Expirable;
  }

  // --------------------------------------------------------------------- whole runs

  datatype Run = Run(states: seq<State>, steps: seq<Step>)

  /** A run starts on a page with that id and at most one draft line, with every actor at its start. */
  ghost predicate IsRun(w: World, run: Run) {
    && |run.states| == |run.steps| + 1
    && run.states[0].holder.None? && run.states[0].log == []
    && (forall a :: a in run.states[0].pcs ==> run.states[0].pcs[a].Start?)
    && Named(w.probes, run.states[0].text, w.pageId)
    && (IsDraft(Block(run.states[0].text).value) ==> OneDraftLine(Block(run.states[0].text).value))
    && forall i :: 0 <= i < |run.steps| ==>
         Enabled(w, run.states[i], run.steps[i]) && run.states[i + 1] == Next(w, run.states[i], run.steps[i])
  }

  lemma {:induction false} EveryStateSound(w: World, run: Run, i: nat)
    requires Sane(w) && IsRun(w, run) && i < |run.states|
    ensures Inv(w, run.states[i])
  {
    hide Next, Enabled, IsDraft, OneDraftLine;
    if i > 0 {
      EveryStateSound(w, run, i - 1);
      StepKeeps(w, run.states[i - 1], run.steps[i - 1]);
    }
  }

  /**
   In every interleaving a page gets at most one verdict, the first one stands for good, and an
   expiry is recorded only against an expiry time that had passed.
   */
  lemma {:induction false} OneVerdictEver(w: World, run: Run, i: nat, k: nat)
    requires Sane(w) && IsRun(w, run) && i <= k < |run.states|
    ensures |run.states[k].log| <= 1
    ensures run.states[i].log <= run.states[k].log
    ensures forall e :: e in run.states[k].log && e.Expired? ==> e.expiry < e.now
    decreases k - i
  {
    EveryStateSound(w, run, k);
    hide Next, Enabled, Named, IsDraft, OneDraftLine;
    if i < k {
      OneVerdictEver(w, run, i, k - 1);
      LogGrows(w, run.states[k - 1], run.steps[k - 1]);
      assert run.states[k] == Next(w, run.states[k - 1], run.steps[k - 1]);
    }
  }

  lemma LogGrows(w: World, s: State, step: Step)
    requires Enabled(w, s, step)
    ensures s.log <= Next(w, s, step).log
  {
    hide Named, IsDraft, OneDraftLine, Stamped, Proceeds, EventOf;
  }

  /** Once a verdict stands, no sweep or endorsement touches the page again. */
  lemma VerdictIsFinal(w: World, run: Run, i: nat)
    requires Sane(w) && IsRun(w, run) && i < |run.steps| && run.states[i].log != [] && !run.steps[i].Edit?
    ensures run.states[i + 1].text == run.states[i].text
  {
    EveryStateSound(w, run, i);
    EveryStateSound(w, run, i + 1);
    hide Named, IsDraft, OneDraftLine, Stamped, Proceeds, EventOf;
    assert Enabled(w, run.states[i], run.steps[i]);
  }

  /** Every actor has its next step open to it, unless it waits for a lock that another one holds. */
  lemma NobodyIsStuck(w: World, run: Run, i: nat, a: Actor)
    requires Sane(w) && IsRun(w, run) && i < |run.states| && a in run.states[i].pcs && a in w.tasks
    ensures var s := run.states[i];
      match s.pcs[a]
      case Start => Enabled(w, s, Look(a))
      case Decided => Enabled(w, s, Lock(a)) <==> s.holder == None
      case Inside => s.holder == Some(a) && Enabled(w, s, Reread(a))
      case Holding(text) => s.holder == Some(a) && text == s.text && Enabled(w, s, Write(a))
      case Leaving => s.holder == Some(a) && Enabled(w, s, Unlock(a))
      case Over => s.holder != Some(a)
  {
    EveryStateSound(w, run, i);
    hide Named, IsDraft, OneDraftLine;
  }

  /** The unlocked look sends an actor on only if the page, as it is then, is one for it. */
  lemma LookDecides(w: World, run: Run, i: nat)
    requires IsRun(w, run) && i < |run.steps| && run.steps[i].Look?
    ensures var a, text, s' := run.steps[i].a, run.states[i].text, run.states[i + 1];
      && s'.text == text && s'.log == run.states[i].log && s'.holder == run.states[i].holder
      && a in s'.pcs && (s'.pcs[a] == Decided || s'.pcs[a] == Over)
      && (s'.pcs[a] == Decided <==> Block(text).Some? && match w.tasks[a]
            case Sweep(now) => && IsDraft(Block(text).value) && w.probes.afm(Block(text).value)
              && w.probes.expiresAt(Block(text).value).Some? && w.probes.expiresAt(Block(text).value).value < now
            case Endorse(_) => w.probes.pageId(Block(text).value) == Some(w.pageId))
  {
    assert Enabled(w, run.states[i], run.steps[i]);
    hide IsDraft, Block;
  }

  /** An actor that writes gives its verdict exactly when the text it re-read under the lock calls for one. */
  lemma WriteDecides(w: World, run: Run, i: nat)
    requires Sane(w) && IsRun(w, run) && i < |run.steps| && run.steps[i].Write?
    ensures var text, log, log' := run.states[i].text, run.states[i].log, run.states[i + 1].log;
      match w.tasks[run.steps[i].a]
      case Sweep(now) =>
        if && Block(text).Some? && IsDraft(Block(text).value) && w.probes.afm(Block(text).value)
           && w.probes.expiresAt(Block(text).value).Some? && w.probes.expiresAt(Block(text).value).value < now
        then log' == log + [Expired(w.probes.expiresAt(Block(text).value).value, now)]
        else log' == log && run.states[i + 1].text == text
      case Endorse(status) =>
        if Block(text).Some? && w.probes.pageId(Block(text).value) == Some(w.pageId) && IsDraft(Block(text).value)
        then log' == log + [Endorsed(status)]
        else log' == log && run.states[i + 1].text == text
  {
    EveryStateSound(w, run, i);
    assert Enabled(w, run.states[i], run.steps[i]);
    hide IsDraft, Block, OneDraftLine, Stamped;
  }

  /**
   A verdict is written over the very text re-read under the lock: the block becomes that block with
   its status replaced, the body stays, and an expiry was the one that block names.
   */
  lemma VerdictRewritesStatusOnly(w: World, run: Run, i: nat)
    requires Sane(w) && IsRun(w, run) && i < |run.steps| && run.states[i + 1].log != run.states[i].log
    ensures run.steps[i].Write?
    ensures var before, after := run.states[i].text, run.states[i + 1].text;
      && Block(before).Some? && IsDraft(Block(before).value)
      && Block(after) == Some(Restamp(Block(before).value, Verdict(w.tasks[run.steps[i].a])))
      && Body(after) == Body(before) && !IsDraft(Block(after).value)
      && Rewritten(before, after, match w.tasks[run.steps[i].a] case Sweep(_) => "expired" case Endorse(s) => s)
      && (w.tasks[run.steps[i].a].Sweep? ==> Expirable(w.probes, before, w.tasks[run.steps[i].a].now))
  {
    EveryStateSound(w, run, i);
    var s, step := run.states[i], run.steps[i];
    assert Enabled(w, s, step) && run.states[i + 1] == Next(w, s, step);
    if step.Write? {
      VerdictsAreKnown(w, step.a);
      RestampKeepsBlock(s.text, Verdict(w.tasks[step.a]));
      RestampLeavesDraft(Block(s.text).value, Verdict(w.tasks[step.a]));
      StampedIsRewritten(s.text, Verdict(w.tasks[step.a]));
    }
    hide Restamp, IsDraft, OneDraftLine, Block, Body, Rewritten;
  }
}
