/** Over every run, what the audit log says of the requests to run a script. */
module RequestRuns {
  import opened Prelude
  import opened Reservations
  import opened ReservationService
  import opened Scheduler
  import opened Protocol
  import opened RowHistory
  import Runs
  import ClosingRuns
  import ConstraintRuns

  /** How often the watchdog asked again for this row. */
  function RetryCount(audit: seq<Audit>, id: nat): nat {
    if audit == [] then 0
    else
      var last := audit[|audit| - 1];
      RetryCount(audit[..|audit| - 1], id) + (if last.DispatchRetry? && last.id == id then 1 else 0)
  }

  /** The instants at which the log says the script was asked for, the first time or again. */
  function AskTimes(audit: seq<Audit>, id: nat): seq<int> {
    if audit == [] then []
    else
      var last := audit[|audit| - 1];
      AskTimes(audit[..|audit| - 1], id) + (if Asks(last, id) then [last.at] else [])
  }

  predicate Asks(a: Audit, id: nat) {
    (a.ScriptDispatched? || a.DispatchRetry?) && a.id == id
  }

  lemma AskPush(audit: seq<Audit>, a: Audit, id: nat)
    ensures AskTimes(audit + [a], id) == AskTimes(audit, id) + (if Asks(a, id) then [a.at] else [])
  {
    assert (audit + [a])[..|audit|] == audit;
  }

  /** Each queued request is in the log, as a dispatch or as a retry, with its instant. */
  predicate Accounted(s: Store, id: nat) {
    && SendTimes(s.sent, id) == AskTimes(s.audit, id)
    && |SendTimes(s.sent, id)| == DispatchCount(s.audit, id) + RetryCount(s.audit, id)
  }

  lemma RetryPush(audit: seq<Audit>, a: Audit, id: nat)
    ensures RetryCount(audit + [a], id) == RetryCount(audit, id) + (if a.DispatchRetry? && a.id == id then 1 else 0)
  {
    assert (audit + [a])[..|audit|] == audit;
  }

  // ------------------------------------------------------------------------------- ticks

  /** A visit logs and queues nothing, or one row and one request of that row, or one row that asks for nothing. */
  lemma VisitGrows(phase: Phase, s: Store, v: nat, m: Moment)
    ensures var t := Visit(phase, s, v, m);
      || (t.sent == s.sent && t.audit == s.audit)
      || (|t.audit| == |s.audit| + 1 && t.audit == s.audit + [t.audit[|s.audit|]]
          && var a := t.audit[|s.audit|];
             if a.ScriptDispatched? || a.DispatchRetry? then a.at == m.now && t.sent == s.sent + [Execute(a.id, m.now)] else t.sent == s.sent)
  {
    hide FailureCount, StartedSeen;
  }

  lemma VisitAccounts(phase: Phase, s: Store, v: nat, m: Moment, id: nat)
    requires Accounted(s, id)
    ensures Accounted(Visit(phase, s, v, m), id)
  {
    hide Visit, SendTimes, DispatchCount, RetryCount, AskTimes, Replay, LegalAudit;
    VisitGrows(phase, s, v, m);
    var t := Visit(phase, s, v, m);
    if t.audit != s.audit {
      var a := t.audit[|s.audit|];
      ReplayPush(s.audit, a, id);
      RetryPush(s.audit, a, id);
      AskPush(s.audit, a, id);
      if a.ScriptDispatched? || a.DispatchRetry? {
        SendPush(s.sent, Execute(a.id, m.now), id);
      }
    }
  }

  lemma {:induction false} PhaseAccounts(phase: Phase, s: Store, order: seq<nat>, m: Moment, id: nat)
    requires Accounted(s, id)
    ensures Accounted(RunPhase(phase, s, order, m), id)
  {
    if order != [] {
      hide Accounted, Visit;
      var n := |order| - 1;
      PhaseAccounts(phase, s, order[..n], m, id);
      VisitAccounts(phase, RunPhase(phase, s, order[..n], m), order[n], m, id);
    }
  }

  lemma TickAccounts(s: Store, o: Orders, m: Moment, id: nat)
    requires Accounted(s, id)
    ensures Accounted(Tick(s, o, m), id)
  {
    hide Accounted, RunPhase;
    var s1 := RunPhase(Promote, s, o.promote, m);
    PhaseAccounts(Promote, s, o.promote, m, id);
    var s2 := RunPhase(Close, s1, o.close, m);
    PhaseAccounts(Close, s1, o.close, m, id);
    var s3 := RunPhase(Dispatch, s2, o.dispatch, m);
    PhaseAccounts(Dispatch, s2, o.dispatch, m, id);
    PhaseAccounts(Watch, s3, o.watch, m, id);
  }

  // -------------------------------------------------------------------------------- runs

  lemma {:induction false} PlainRowsCount(audit: seq<Audit>, more: seq<Audit>, id: nat)
    requires forall k :: 0 <= k < |more| ==> ClosingRuns.Plain(more[k])
    ensures DispatchCount(audit + more, id) == DispatchCount(audit, id)
    ensures RetryCount(audit + more, id) == RetryCount(audit, id)
    ensures AskTimes(audit + more, id) == AskTimes(audit, id)
    decreases |more|
  {
    if more == [] {
      assert audit + more == audit;
    } else {
      hide DispatchCount, RetryCount, AskTimes, Replay, LegalAudit;
      var n := |more| - 1;
      PlainRowsCount(audit, more[..n], id);
      ReplayPush(audit + more[..n], more[n], id);
      RetryPush(audit + more[..n], more[n], id);
      AskPush(audit + more[..n], more[n], id);
      assert audit + more == audit + more[..n] + [more[n]];
    }
  }

  lemma StepAccounts(sys: System, step: Step, id: nat)
    requires Accounted(sys.store, id)
    ensures Accounted(Next(sys, step).store, id)
  {
    hide Tick, SendTimes, DispatchCount, RetryCount, AskTimes;
    if !step.TickAt? {
      hide Next;
      ClosingRuns.OtherStepsArePlain(sys, step);
      ConstraintRuns.OnlyTicksSend(sys, step);
      var before, after := sys.store.audit, Next(sys, step).store.audit;
      PlainRowsCount(before, after[|before|..], id);
      assert before + after[|before|..] == after;
    } else if OrdersCover(step.orders, |sys.store.rows|) {
      TickAccounts(sys.store, step.orders, step.moment, id);
    }
  }

  /** In every run each queued request is one audited dispatch or one audited retry, and there is at most one dispatch. */
  lemma RequestsAreAudited(run: seq<Step>, id: nat)
    ensures var s := After(INIT, run).store;
      && |SendTimes(s.sent, id)| == DispatchCount(s.audit, id) + RetryCount(s.audit, id)
      && |SendTimes(s.sent, id)| <= 1 + RetryCount(s.audit, id)
      && SendTimes(s.sent, id) == AskTimes(s.audit, id)
  {
    hide After, SendTimes, DispatchCount, RetryCount, AskTimes;
    RunAccounts(run, id);
    Runs.DispatchDiscipline(run, id);
  }

  lemma {:induction false} RunAccounts(run: seq<Step>, id: nat)
    ensures Accounted(After(INIT, run).store, id)
  {
    if run != [] {
      hide Accounted, Next;
      RunAccounts(run[..|run| - 1], id);
      StepAccounts(After(INIT, run[..|run| - 1]), run[|run| - 1], id);
    }
  }

  /** The step is a started event of the row, or a finished event that finds its script dispatched. */
  predicate Reports(rows: seq<Row>, step: Step, id: nat) {
    && id < |rows|
    && (step == ScriptStarted(id) || (step.ScriptFinished? && step.id == id && rows[id].scriptStatus.Some?))
  }

  lemma FinishedQuiets(s: Store, killed: bool, exitZero: bool, id: nat)
    requires id < |s.rows| && s.rows[id].scriptStatus.Some?
    ensures var t := OnScriptFinished(s, id, killed, exitZero); |t.rows| == |s.rows| && Quiet(t.rows[id]) && t.sent == s.sent
  {
  }

  /** Once either event about the row's script has been handled, nothing later queues another request for it. */
  lemma NoRequestAfterReport(run: seq<Step>, k: nat, id: nat)
    requires k < |run| && Reports(After(INIT, run[..k]).store.rows, run[k], id)
    ensures SendTimes(After(INIT, run).store.sent, id) == SendTimes(After(INIT, run[..k]).store.sent, id)
  {
    hide After, SendTimes, Quiet, Replay, LegalAudit, DispatchCount, OnScriptFinished;
    if run[k].ScriptStarted? {
      Runs.NoRequestAfterStarted(run, k, id);
    } else {
      var sys := After(INIT, run[..k]);
      FinishedQuiets(sys.store, run[k].killed, run[k].exitZero, id);
      Runs.PrefixStep(run, k);
      assert Next(sys, run[k]).store == OnScriptFinished(sys.store, id, run[k].killed, run[k].exitZero);
      Runs.RunEvolves(run, k + 1, id);
    }
  }
}
