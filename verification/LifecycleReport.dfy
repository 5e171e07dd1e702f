/** When the report of a lifecycle handler discharges a held decision set. */
module LifecycleReport {
  import opened Prelude
  import opened DraftQueue

  /** What a handler really did: the decisions it made final, those still proposed, and how many raised. */
  datatype Effect = Effect(promoted: set<string>, deduped: set<string>, reviewed: set<string>,
                           open: set<string>, failed: nat)
  {
    predicate NoneFinal() {
      promoted == {} && deduped == {} && reviewed == {}
    }

    /** Every decision of the set was made final. */
    ghost predicate AllFinal(life: Lifecycle) {
      && (forall id :: id in life.promote ==> id in promoted)
      && (forall id :: id in life.dedup ==> id in deduped)
      && (forall id :: id in life.review ==> id in reviewed)
    }
  }

  /** The report of a handler says what the handler did to these decisions. */
  ghost predicate Truthful(report: Report, life: Lifecycle, effect: Effect) {
    && report.Report?
    && (report.remaining.Some? ==> forall id :: id in report.remaining.value <==> id in effect.open)
    && report.errors == effect.failed
    && report.promoted == |effect.promoted| && report.deduped == |effect.deduped|
    && report.reviewed == |effect.reviewed|
    && (report.requested.Some? ==>
          report.requested.value == Requested(|life.promote|, |life.dedup|, |life.review|))
    && (forall id :: id in effect.promoted ==> id in life.promote)
    && (forall id :: id in effect.deduped ==> id in life.dedup)
    && (forall id :: id in effect.reviewed ==> id in life.review)
  }

  /**
   The decisions need no further apply: where the handler names what is left, nothing is; where it
   does not, they were all made final, or none was, as when all had been settled before.
   */
  ghost predicate Settled(report: Report, life: Lifecycle, effect: Effect) {
    && report.Report? && effect.failed == 0
    && if report.remaining.Some? then effect.open == {} else effect.NoneFinal() || effect.AllFinal(life)
  }

  ghost predicate NoRepeats(s: seq<string>) {
    forall i, k :: 0 <= i < k < |s| ==> s[i] != s[k]
  }

  /**
   What the hold is dropped for: settled decisions.  Counts alone cannot show that, if a decision is
   listed twice: it is made final once and counted once, so the set stays held.
   */
  ghost predicate Dropped(report: Report, life: Lifecycle, effect: Effect) {
    && Settled(report, life, effect)
    && (report.remaining.Some? || effect.NoneFinal()
        || (NoRepeats(life.promote) && NoRepeats(life.dedup) && NoRepeats(life.review)))
  }

  lemma {:induction false} CountsDecide(s: set<string>, t: seq<string>)
    requires forall x :: x in s ==> x in t
    ensures |s| <= |t|
    ensures |s| == |t| <==> NoRepeats(t) && forall x :: x in t ==> x in s
  {
    if t != [] {
      var last, init := t[|t| - 1], t[..|t| - 1];
      assert t == init + [last];
      OneLess(s, last);
      if last in init && last in s {
        CountsDecide(s, init);
        assert |s| <= |init|;
      } else {
        CountsDecide(s - {last}, init);
      }
      RepeatsOf(init, last);
      hide NoRepeats;
    }
  }

  lemma OneLess(s: set<string>, x: string)
    ensures |s - {x}| == |s| - if x in s then 1 else 0
  {
    if x !in s { assert s - {x} == s; }
  }

  lemma RepeatsOf(init: seq<string>, last: string)
    ensures NoRepeats(init + [last]) <==> NoRepeats(init) && last !in init
  {
    var t := init + [last];
    if NoRepeats(t) {
      assert forall i :: 0 <= i < |init| ==> t[i] == init[i] && t[i] != t[|init|];
    }
  }

  /**
   A truthful report is judged complete if and only if the decisions it answers for need no further
   apply, and as work done if and only if some decision was made final.
   */
  lemma VerdictTells(report: Report, life: Lifecycle, effect: Effect)
    requires Truthful(report, life, effect)
    ensures ApplyVerdict(report, life).complete <==> Dropped(report, life, effect)
    ensures ApplyVerdict(report, life).didWork <==> !effect.NoneFinal()
  {
    CountsDecide(effect.promoted, life.promote);
    CountsDecide(effect.deduped, life.dedup);
    CountsDecide(effect.reviewed, life.review);
    if report.remaining.Some? { NoneLeft(report, life, effect); }
    hide NoRepeats;
  }

  lemma NoneLeft(report: Report, life: Lifecycle, effect: Effect)
    requires Truthful(report, life, effect) && report.remaining.Some?
    ensures |report.remaining.value| == 0 <==> effect.open == {}
  {
    var left := report.remaining.value;
    if left != [] { assert left[0] in effect.open; }
  }

  /** The outcome shows that nothing of the decision set is left to apply, as far as its report is truthful. */
  ghost predicate NothingLeft(outcome: Outcome, life: Lifecycle) {
    && outcome.Returned?
    && forall effect :: Truthful(outcome.report, life, effect) ==> Settled(outcome.report, life, effect)
  }

  lemma CompleteLeavesNothing(outcome: Outcome, life: Lifecycle)
    requires Complete(outcome, life)
    ensures NothingLeft(outcome, life)
  {
    hide ApplyVerdict, Truthful;
    forall effect | Truthful(outcome.report, life, effect)
      ensures Settled(outcome.report, life, effect)
    {
      VerdictTells(outcome.report, life, effect);
    }
  }

  /** The hold is kept exactly when a truthful report says that something is left. */
  ghost predicate HeldAsReported(held: bool, outcome: Outcome, life: Lifecycle) {
    && (outcome.Raised? ==> held)
    && (outcome == Returned(Unreported) ==> !held)
    && (outcome.Returned? ==>
          forall effect :: Truthful(outcome.report, life, effect) ==>
            (held <==> !Dropped(outcome.report, life, effect)))
  }

  lemma HeldUnlessComplete(outcome: Outcome, life: Lifecycle)
    ensures HeldAsReported(!Complete(outcome, life), outcome, life)
  {
    hide Dropped, Truthful;
    if outcome.Returned? {
      forall effect | Truthful(outcome.report, life, effect)
        ensures Complete(outcome, life) <==> Dropped(outcome.report, life, effect)
      {
        VerdictTells(outcome.report, life, effect);
      }
    }
  }
}
