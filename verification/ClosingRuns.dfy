/** Over every run, why a row was closed as it was, and when the watchdog asks again or gives up. */
module ClosingRuns {
  import opened Prelude
  import opened Reservations
  import opened ReservationService
  import opened Scheduler
  import opened Protocol
  import opened RowHistory
  import Runs

  predicate EndedBadly(script: Option<ScriptStatus>) {
    script == Some(ScriptFailed) || script == Some(ScriptKilled)
  }

  /** Three sends failed and no started event was audited, with the script still marked running. */
  predicate Unreachable(before: seq<Audit>, e: Replayed, id: nat) {
    && e.scriptStatus == Some(ScriptRunning)
    && FailureCount(before, id) >= WATCHDOG_MAX_DISPATCH_ATTEMPTS
    && !StartedSeen(before, id)
  }

  /** One audit row about the reservation is explained by the log before it. */
  predicate Explained(before: seq<Audit>, a: Audit, id: nat) {
    var e := Replay(before, id);
    match a
    case Transition(i, _, to) =>
      i == id ==>
        && e.Some?
        && (to == Completed ==> !EndedBadly(e.value.scriptStatus))
        && (to == Failed ==> EndedBadly(e.value.scriptStatus) || Unreachable(before, e.value, id))
    case ScriptDispatched(i, _) =>
      i == id ==> e.Some? && e.value.status == Active && e.value.scriptStatus.None?
    case DispatchRetry(i, attempt, _) =>
      i == id ==>
        && e.Some? && e.value.status == Active && e.value.scriptStatus == Some(ScriptRunning)
        && attempt == FailureCount(before, id) + 1 <= WATCHDOG_MAX_DISPATCH_ATTEMPTS
        && !StartedSeen(before, id)
    case _ => true
  }

  predicate AllExplained(audit: seq<Audit>, id: nat) {
    audit != [] ==>
      AllExplained(audit[..|audit| - 1], id) && Explained(audit[..|audit| - 1], audit[|audit| - 1], id)
  }

  lemma ExplainedPush(audit: seq<Audit>, a: Audit, id: nat)
    ensures AllExplained(audit + [a], id) <==> AllExplained(audit, id) && Explained(audit, a, id)
  {
    assert (audit + [a])[..|audit|] == audit;
  }

  /** Audit rows that speak of no transition, dispatch or retry need no explaining. */
  predicate Plain(a: Audit) {
    !a.Transition? && !a.ScriptDispatched? && !a.DispatchRetry?
  }

  lemma {:induction false} PlainRowsKeep(audit: seq<Audit>, more: seq<Audit>, id: nat)
    requires AllExplained(audit, id) && forall k :: 0 <= k < |more| ==> Plain(more[k])
    ensures AllExplained(audit + more, id)
    decreases |more|
  {
    if more == [] {
      assert audit + more == audit;
    } else {
      var n := |more| - 1;
      PlainRowsKeep(audit, more[..n], id);
      ExplainedPush(audit + more[..n], more[n], id);
      assert audit + more == audit + more[..n] + [more[n]];
    }
  }

  // ------------------------------------------------------------------------------- ticks

  lemma VisitExplains(phase: Phase, s: Store, v: nat, m: Moment, id: nat)
    requires Sound(s, id) && AllExplained(s.audit, id)
    ensures AllExplained(Visit(phase, s, v, m).audit, id)
  {
    hide Replay, LegalAudit, SendTimes, DispatchCount, AllExplained, FailureCount, StartedSeen;
    var t := Visit(phase, s, v, m);
    if t.audit != s.audit {
      var a := t.audit[|s.audit|];
      assert t.audit == s.audit + [a];
      ExplainedPush(s.audit, a, id);
    }
  }

  lemma {:induction false} PhaseExplains(phase: Phase, s: Store, order: seq<nat>, m: Moment, id: nat)
    requires Sound(s, id) && AllExplained(s.audit, id)
    requires phase == Dispatch || phase == Watch ==> Settled(s, id, m)
    ensures AllExplained(RunPhase(phase, s, order, m).audit, id)
  {
    if order != [] {
      hide Sound, AllExplained, Settled, Visit;
      var n := |order| - 1;
      PhaseExplains(phase, s, order[..n], m, id);
      PhaseKeepsSound(phase, s, order[..n], m, id);
      VisitExplains(phase, RunPhase(phase, s, order[..n], m), order[n], m, id);
    }
  }

  lemma TickExplains(s: Store, o: Orders, m: Moment, id: nat)
    requires Sound(s, id) && AllExplained(s.audit, id) && Covers(o.close, |s.rows|)
    ensures AllExplained(Tick(s, o, m).audit, id)
  {
    hide Sound, AllExplained, RunPhase;
    var s1 := RunPhase(Promote, s, o.promote, m);
    PhaseKeepsSound(Promote, s, o.promote, m, id);
    PhaseExplains(Promote, s, o.promote, m, id);
    var s2 := RunPhase(Close, s1, o.close, m);
    PhaseKeepsSound(Close, s1, o.close, m, id);
    PhaseExplains(Close, s1, o.close, m, id);
    var s3 := RunPhase(Dispatch, s2, o.dispatch, m);
    PhaseKeepsSound(Dispatch, s2, o.dispatch, m, id);
    PhaseExplains(Dispatch, s2, o.dispatch, m, id);
    PhaseExplains(Watch, s3, o.watch, m, id);
  }

  // -------------------------------------------------------------------------------- runs

  /** The log only grew, and only by plain rows. */
  predicate GrewPlainly(before: seq<Audit>, after: seq<Audit>) {
    before <= after && forall k :: |before| <= k < |after| ==> Plain(after[k])
  }

  lemma CallStepsArePlain(sys: System, step: Step)
    requires IsCallStep(step)
    ensures GrewPlainly(sys.store.audit, Next(sys, step).store.audit)
  {
    hide CallStep;
    Runs.CallStepStore(sys, step);
  }

  lemma StoreStepsArePlain(s: Store, step: Step)
    requires !step.TickAt?
    ensures GrewPlainly(s.audit, StoreStep(s, step).audit)
  {
  }

  lemma OtherStepsArePlain(sys: System, step: Step)
    requires !step.TickAt?
    ensures GrewPlainly(sys.store.audit, Next(sys, step).store.audit)
  {
    hide GrewPlainly, StoreStep, CallStep;
    if IsCallStep(step) {
      CallStepsArePlain(sys, step);
    } else {
      StoreStepsArePlain(sys.store, step);
    }
  }

  lemma GrowthExplains(before: seq<Audit>, after: seq<Audit>, id: nat)
    requires AllExplained(before, id) && GrewPlainly(before, after)
    ensures AllExplained(after, id)
  {
    hide AllExplained;
    PlainRowsKeep(before, after[|before|..], id);
    assert before + after[|before|..] == after;
  }

  lemma StepExplains(sys: System, step: Step, id: nat)
    requires Sound(sys.store, id) && AllExplained(sys.store.audit, id)
    ensures AllExplained(Next(sys, step).store.audit, id)
  {
    hide AllExplained, Sound, Tick, GrewPlainly;
    if !step.TickAt? {
      OtherStepsArePlain(sys, step);
      GrowthExplains(sys.store.audit, Next(sys, step).store.audit, id);
    } else if OrdersCover(step.orders, |sys.store.rows|) {
      TickExplains(sys.store, step.orders, step.moment, id);
    }
  }

  lemma {:induction false} RunExplains(run: seq<Step>, id: nat)
    ensures AllExplained(After(INIT, run).store.audit, id)
  {
    if run != [] {
      hide AllExplained, Sound, Next;
      RunExplains(run[..|run| - 1], id);
      Runs.RunKeepsSound(run[..|run| - 1], id);
      StepExplains(After(INIT, run[..|run| - 1]), run[|run| - 1], id);
    }
  }

  /**
   In every run: a row is completed only while its script has not failed or been killed; it is failed only after
   that, or after three failed sends with no started event; the first dispatch finds it active with no script
   status; and every retry finds it active and running, counts the failed sends, and is at most the third.
   */
  lemma EveryClosingIsExplained(run: seq<Step>, id: nat, k: nat)
    requires k < |After(INIT, run).store.audit|
    ensures var audit := After(INIT, run).store.audit; Explained(audit[..k], audit[k], id)
  {
    hide After, Explained;
    RunExplains(run, id);
    ExplainedPrefix(After(INIT, run).store.audit, k, id);
  }

  lemma {:induction false} ExplainedPrefix(audit: seq<Audit>, k: nat, id: nat)
    requires AllExplained(audit, id) && k < |audit|
    ensures Explained(audit[..k], audit[k], id)
    decreases |audit|
  {
    hide Explained;
    var n := |audit| - 1;
    if k < n {
      ExplainedPrefix(audit[..n], k, id);
      assert audit[..n][..k] == audit[..k];
    }
  }
}
