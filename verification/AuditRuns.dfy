/** Over every run, the audit rows the watchdog reads and the attempts it leaves behind, counted from the steps alone. */
module AuditRuns {
  import opened Prelude
  import opened Reservations
  import opened ReservationService
  import opened Scheduler
  import opened Protocol
  import opened RowHistory
  import TickEffects
  import Runs

  /** The audit rows that report an event of the agent or of a send, not a change of status. */
  predicate Tells(a: Audit) {
    a.LifecycleStarted? || a.DispatchAttemptFailed? || a.CancelAttemptFailed?
  }

  // ------------------------------------------------------------------------- single steps

  lemma MultisetPush(audit: seq<Audit>, a: Audit, b: Audit)
    ensures multiset(audit + [a])[b] == multiset(audit)[b] + if a == b then 1 else 0
  {
  }

  /** The log grew, and by nothing that tells of an event. */
  predicate GrewSilently(before: seq<Audit>, after: seq<Audit>) {
    before <= after && forall k :: |before| <= k < |after| ==> !Tells(after[k])
  }

  lemma SilentTransitive(a: seq<Audit>, b: seq<Audit>, c: seq<Audit>)
    requires GrewSilently(a, b) && GrewSilently(b, c)
    ensures GrewSilently(a, c)
  {
  }

  lemma SilentCount(before: seq<Audit>, after: seq<Audit>, a: Audit)
    requires GrewSilently(before, after) && Tells(a)
    ensures multiset(after)[a] == multiset(before)[a]
  {
    var more := after[|before|..];
    assert after == before + more;
    assert forall k :: 0 <= k < |more| ==> more[k] == after[|before| + k];
    assert a !in more;
    assert multiset(after) == multiset(before) + multiset(more);
  }

  lemma VisitIsSilent(phase: Phase, s: Store, v: nat, m: Moment)
    ensures GrewSilently(s.audit, Visit(phase, s, v, m).audit)
  {
    hide FailureCount, StartedSeen;
  }

  lemma {:induction false} PhaseIsSilent(phase: Phase, s: Store, order: seq<nat>, m: Moment)
    ensures GrewSilently(s.audit, RunPhase(phase, s, order, m).audit)
  {
    if order != [] {
      hide GrewSilently, Visit;
      var n := |order| - 1;
      var before := RunPhase(phase, s, order[..n], m);
      PhaseIsSilent(phase, s, order[..n], m);
      VisitIsSilent(phase, before, order[n], m);
      SilentTransitive(s.audit, before.audit, RunPhase(phase, s, order, m).audit);
    } else {
      assert RunPhase(phase, s, order, m) == s;
    }
  }

  lemma TickIsSilent(s: Store, o: Orders, m: Moment)
    ensures GrewSilently(s.audit, Tick(s, o, m).audit)
  {
    hide RunPhase, GrewSilently;
    var s1 := RunPhase(Promote, s, o.promote, m);
    var s2 := RunPhase(Close, s1, o.close, m);
    var s3 := RunPhase(Dispatch, s2, o.dispatch, m);
    PhaseIsSilent(Promote, s, o.promote, m);
    PhaseIsSilent(Close, s1, o.close, m);
    PhaseIsSilent(Dispatch, s2, o.dispatch, m);
    PhaseIsSilent(Watch, s3, o.watch, m);
    SilentTransitive(s.audit, s1.audit, s2.audit);
    SilentTransitive(s.audit, s2.audit, s3.audit);
    SilentTransitive(s.audit, s3.audit, Tick(s, o, m).audit);
  }

  /** The step makes the log say `a` once more. */
  predicate Logs(sys: System, step: Step, a: Audit) {
    match a
    case DispatchAttemptFailed(id) => step == AttemptFailed(id)
    case LifecycleStarted(id) =>
      && step == ScriptStarted(id) && id < |sys.store.rows|
      && (sys.store.rows[id].scriptStatus.None? || sys.store.rows[id].scriptStatus == Some(ScriptRunning))
    case CancelAttemptFailed(id) =>
      || (step.CancelRpcFailed? && InState(sys, step.call, AwaitingRpc) && sys.calls[step.call].rowId == id)
      || (step.CancelTimedOut? && InState(sys, step.call, AwaitingKill) && sys.calls[step.call].rowId == id)
    case _ => false
  }

  lemma ServiceStepIsSilent(s: Store, step: Step)
    requires !step.TickAt? && !step.AttemptFailed? && !step.ScriptStarted?
    ensures GrewSilently(s.audit, StoreStep(s, step).audit)
  {
  }

  lemma StartedLogs(s: Store, id: nat, a: Audit)
    requires Tells(a)
    ensures multiset(OnScriptStarted(s, id).audit)[a] == multiset(s.audit)[a]
      + if a == LifecycleStarted(id) && id < |s.rows|
           && (s.rows[id].scriptStatus.None? || s.rows[id].scriptStatus == Some(ScriptRunning)) then 1 else 0
  {
    if id < |s.rows| {
      if s.rows[id].scriptStatus == Some(ScriptRunning) {
        MultisetPush(s.audit, LifecycleStarted(id), a);
      } else if s.rows[id].scriptStatus.None? {
        var t := MoveScript(s, id, ScriptRunning);
        MultisetPush(s.audit, ScriptLifecycle(id, None, ScriptRunning), a);
        MultisetPush(t.audit, LifecycleStarted(id), a);
      }
    }
  }

  predicate FailsNow(sys: System, step: Step) {
    || (step.CancelRpcFailed? && InState(sys, step.call, AwaitingRpc))
    || (step.CancelTimedOut? && InState(sys, step.call, AwaitingKill))
  }

  lemma CallStepAudit(sys: System, step: Step)
    requires IsCallStep(step)
    ensures var before, after := sys.store.audit, CallStep(sys, step).store.audit;
      if FailsNow(sys, step) then after == before + [CancelAttemptFailed(sys.calls[step.call].rowId)]
      else after == before || (|after| == |before| + 1 && after == before + [after[|before|]] && !Tells(after[|before|]))
  {
  }

  lemma CallStepLogs(sys: System, step: Step, a: Audit)
    requires IsCallStep(step) && Tells(a)
    ensures multiset(CallStep(sys, step).store.audit)[a] == multiset(sys.store.audit)[a] + if Logs(sys, step, a) then 1 else 0
  {
    CallStepAudit(sys, step);
    assert Logs(sys, step, a) <==> FailsNow(sys, step) && a == CancelAttemptFailed(sys.calls[step.call].rowId);
    hide CallStep, Logs, InState;
    var before, after := sys.store.audit, CallStep(sys, step).store.audit;
    if after != before {
      MultisetPush(before, after[|before|], a);
    }
  }

  lemma StepLogs(sys: System, step: Step, a: Audit)
    requires Tells(a)
    ensures multiset(Next(sys, step).store.audit)[a] == multiset(sys.store.audit)[a] + if Logs(sys, step, a) then 1 else 0
  {
    hide CallStep, StoreStep, Tick, GrewSilently, OnScriptStarted, OrdersCover;
    if IsCallStep(step) {
      CallStepLogs(sys, step, a);
    } else {
      StoreStepLogs(sys, step, a);
    }
  }

  /** The steps that may tell of an event, and the tick. */
  lemma WhatStepsDo(s: Store, step: Step)
    ensures step.TickAt? ==> StoreStep(s, step) == if OrdersCover(step.orders, |s.rows|) then Tick(s, step.orders, step.moment) else s
    ensures step.ScriptStarted? ==> StoreStep(s, step) == OnScriptStarted(s, step.id)
    ensures step.AttemptFailed? ==> StoreStep(s, step).audit == s.audit + [DispatchAttemptFailed(step.id)]
  {
    hide Tick, OnScriptStarted, OrdersCover;
  }

  lemma StoreStepLogs(sys: System, step: Step, a: Audit)
    requires Tells(a) && !IsCallStep(step)
    ensures multiset(StoreStep(sys.store, step).audit)[a] == multiset(sys.store.audit)[a] + if Logs(sys, step, a) then 1 else 0
  {
    var s := sys.store;
    WhatStepsDo(s, step);
    hide StoreStep, Tick, GrewSilently, OnScriptStarted, OrdersCover;
    match step
    case TickAt(m, o) =>
      if StoreStep(s, step) == Tick(s, o, m) {
        TickIsSilent(s, o, m);
        SilentCount(s.audit, StoreStep(s, step).audit, a);
      }
    case AttemptFailed(id) => MultisetPush(s.audit, DispatchAttemptFailed(id), a);
    case ScriptStarted(id) => StartedLogs(s, id, a);
    case _ =>
      ServiceStepIsSilent(s, step);
      SilentCount(s.audit, StoreStep(s, step).audit, a);
  }

  // -------------------------------------------------------------------------------- runs

  /** How many of the first n steps log `a`. */
  ghost function TimesLogged(run: seq<Step>, n: nat, a: Audit): nat
    requires n <= |run|
  {
    if n == 0 then 0 else TimesLogged(run, n - 1, a) + if Logs(After(INIT, run[..n - 1]), run[n - 1], a) then 1 else 0
  }

  function Told(sys: System, a: Audit): nat {
    multiset(sys.store.audit)[a]
  }

  lemma NothingTold(run: seq<Step>, a: Audit)
    ensures Told(After(INIT, run[..0]), a) == 0
  {
  }

  lemma ToldOneMore(sys: System, step: Step, a: Audit)
    requires Tells(a)
    ensures Told(Next(sys, step), a) == Told(sys, a) + if Logs(sys, step, a) then 1 else 0
  {
    hide Next, Logs;
    StepLogs(sys, step, a);
  }

  lemma {:induction false} CountsAgree(run: seq<Step>, n: nat, a: Audit)
    requires n <= |run| && Tells(a)
    ensures Told(After(INIT, run[..n]), a) == TimesLogged(run, n, a)
    decreases n
  {
    NothingTold(run, a);
    hide After, Next, Logs, Told;
    if n > 0 {
      CountsAgree(run, n - 1, a);
      Runs.PrefixStep(run, n - 1);
      ToldOneMore(After(INIT, run[..n - 1]), run[n - 1], a);
    }
  }

  /** In every run the log says a send failed, a script started or a cancel attempt failed exactly as often as that happened. */
  lemma LogTellsEachEventOnce(run: seq<Step>, n: nat, a: Audit)
    requires n <= |run| && Tells(a)
    ensures multiset(After(INIT, run[..n]).store.audit)[a] == TimesLogged(run, n, a)
  {
    hide After, TimesLogged;
    CountsAgree(run, n, a);
  }

  // ---- the watchdog from the events alone

  ghost predicate StartedBefore(run: seq<Step>, n: nat, id: nat)
    requires n <= |run|
  {
    exists j :: 0 <= j < n && Logs(After(INIT, run[..j]), run[j], LifecycleStarted(id))
  }

  lemma {:induction false} LoggedExactly(run: seq<Step>, n: nat, a: Audit)
    requires n <= |run|
    ensures TimesLogged(run, n, a) > 0 <==> exists j :: 0 <= j < n && Logs(After(INIT, run[..j]), run[j], a)
  {
    hide After, Logs;
    if n > 0 {
      LoggedExactly(run, n - 1, a);
    }
  }

  lemma {:induction false} FailedSends(run: seq<Step>, n: nat, id: nat)
    requires n <= |run|
    ensures TimesLogged(run, n, DispatchAttemptFailed(id)) == multiset(run[..n])[AttemptFailed(id)]
  {
    hide After;
    if n > 0 {
      FailedSends(run, n - 1, id);
      assert run[..n] == run[..n - 1] + [run[n - 1]];
    }
  }

  /**
   In every run: a request that has gone unanswered for a minute is forgotten by the next tick if a started event was
   handled, ends the reservation as failed if three sends had failed, and is made once more if fewer had and the
   account is there.
   */
  lemma StuckRequestIsSettled(run: seq<Step>, k: nat, id: nat)
    requires k < |run| && run[k].TickAt?
    requires var rows, m := After(INIT, run[..k]).store.rows, run[k].moment;
      && id < |rows| && OrdersCover(run[k].orders, |rows|) && rows[id].serverId in m.servers
      && rows[id].status == Active && m.now < rows[id].endAt && rows[id].scriptStatus == Some(ScriptRunning)
      && rows[id].dispatchStartedAt.Some? && rows[id].dispatchStartedAt.value < m.now - 60_000_000
    ensures var s, t := After(INIT, run[..k]).store, After(INIT, run[..k + 1]).store;
      var r, m, failures := s.rows[id], run[k].moment, multiset(run[..k])[AttemptFailed(id)];
      && id < |t.rows|
      && t.rows[id] == (if StartedBefore(run, k, id) then r.(dispatchStartedAt := None)
                        else if failures >= 3 then r.(status := Failed)
                        else if r.linkId in m.links then r.(dispatchStartedAt := Some(m.now))
                        else r)
      && SendTimes(t.sent, id) == SendTimes(s.sent, id)
           + (if !StartedBefore(run, k, id) && failures < 3 && r.linkId in m.links then [m.now] else [])
  {
    hide After, SendTimes, OrdersCover, Logs;
    var sys, o, m := After(INIT, run[..k]), run[k].orders, run[k].moment;
    LogTellsEachEventOnce(run, k, DispatchAttemptFailed(id));
    FailedSends(run, k, id);
    LogTellsEachEventOnce(run, k, LifecycleStarted(id));
    LoggedExactly(run, k, LifecycleStarted(id));
    Runs.PrefixStep(run, k);
    assert Next(sys, run[k]).store == Tick(sys.store, o, m);
    hide Tick, Next, TimesLogged, StartedBefore;
    TickEffects.WatchdogActs(sys.store, o, m, id);
  }
}
