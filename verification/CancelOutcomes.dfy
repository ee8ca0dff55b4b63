/** Over every run, what a suspended cancel achieves: how each call ends, and what its end does to its reservation. */
module CancelOutcomes {
  import opened Prelude
  import opened Reservations
  import opened ReservationService
  import opened Scheduler
  import opened Protocol
  import opened RowHistory
  import opened Runs
  import opened CancelRuns
  import AuditRuns

  // ------------------------------------------------------------------- the confirmed cancel

  /** Who may cancel the row now. */
  predicate MayCancel(rows: seq<Row>, call: Call) {
    && call.rowId < |rows|
    && (rows[call.rowId].status == Scheduled || rows[call.rowId].status == Active)
    && (call.canAdmin || rows[call.rowId].userId == call.actorId)
  }

  /**
   In every run, the confirmation of a signalled call cancels its row and says so in the log, when the row still lives
   and the actor is its owner or an admin; otherwise the call ends as refused and the store stays as it was.
   */
  lemma ConfirmationCancels(run: seq<Step>, k: nat, c: nat)
    requires k < |run| && run[k] == CancelConfirmed(c)
    requires var sys := After(INIT, run[..k]); InState(sys, c, AwaitingKill) && sys.calls[c].signalled
    ensures var sys, t := After(INIT, run[..k]), After(INIT, run[..k + 1]);
      var s, call := sys.store, sys.calls[c];
      && |t.calls| == |sys.calls|
      && if MayCancel(s.rows, call) then
           && t.calls[c].state == Done(Confirmed)
           && t.store.rows == s.rows[call.rowId := s.rows[call.rowId].(status := Cancelled)]
           && t.store.audit == s.audit + [Cancel(call.rowId)] && t.store.sent == s.sent
         else t.calls[c].state == Done(CancelRefused) && t.store == s
  {
    hide After;
    PrefixStep(run, k);
    hide StoreStep, Tick;
  }

  lemma KillSignals(sys: System, step: Step, c: nat)
    requires step.ScriptFinished? && step.killed && step.id < |sys.store.rows|
    requires c < |sys.calls| && step.id in sys.registry && sys.registry[step.id] == c
    ensures var t := Next(sys, step); |t.calls| == |sys.calls| && t.calls[c] == sys.calls[c].(signalled := true)
  {
    hide StoreStep, CallStep;
  }

  /** A killed finish, handled while the call is the registered one of its row, leaves the call signalled. */
  lemma KillReachesCall(run: seq<Step>, j: nat, c: nat)
    requires j < |run| && run[j].ScriptFinished? && run[j].killed
    requires var sys := After(INIT, run[..j]);
      run[j].id < |sys.store.rows| && run[j].id in sys.registry && sys.registry[run[j].id] == c
    ensures c < |After(INIT, run[..j]).calls|
    ensures var t := After(INIT, run[..j + 1]); c < |t.calls| && t.calls[c] == After(INIT, run[..j]).calls[c].(signalled := true)
  {
    RunKeepsRegistry(run, j);
    hide After;
    PrefixStep(run, j);
    KillSignals(After(INIT, run[..j]), run[j], c);
  }

  lemma NextKeepsSignals(sys: System, step: Step, c: nat)
    requires c < |sys.calls|
    ensures var t := Next(sys, step);
      && c < |t.calls|
      && (sys.calls[c].signalled ==> t.calls[c].signalled)
      && t.calls[c].rowId == sys.calls[c].rowId && t.calls[c].actorId == sys.calls[c].actorId && t.calls[c].canAdmin == sys.calls[c].canAdmin
      && (sys.calls[c].state.Done? ==> t.calls[c].state == sys.calls[c].state)
  {
    hide StoreStep, CancelRow;
  }

  /** A call keeps its row, its actor and its signal, and its outcome once it has one. */
  lemma {:induction false} CallsKeep(run: seq<Step>, j: nat, k: nat, c: nat)
    requires j <= k <= |run| && c < |After(INIT, run[..j]).calls|
    ensures c < |After(INIT, run[..k]).calls|
    ensures var a, b := After(INIT, run[..j]).calls[c], After(INIT, run[..k]).calls[c];
      && (a.signalled ==> b.signalled) && b.rowId == a.rowId && b.actorId == a.actorId && b.canAdmin == a.canAdmin
      && (a.state.Done? ==> b.state == a.state)
    decreases k
  {
    hide After, Next;
    if j < k {
      CallsKeep(run, j, k - 1, c);
      PrefixStep(run, k - 1);
      NextKeepsSignals(After(INIT, run[..k - 1]), run[k - 1], c);
    }
  }

  /**
   In every run: once a killed finish was handled while the call was registered, and the call is still awaiting it, the
   confirmation is enabled and ends the call, with the row cancelled exactly when it lives and the actor may cancel it.
   */
  lemma KilledCallCancels(run: seq<Step>, j: nat, k: nat, c: nat)
    requires j < k < |run| && run[j].ScriptFinished? && run[j].killed && run[k] == CancelConfirmed(c)
    requires var sys := After(INIT, run[..j]);
      run[j].id < |sys.store.rows| && run[j].id in sys.registry && sys.registry[run[j].id] == c
    requires InState(After(INIT, run[..k]), c, AwaitingKill)
    ensures var sys, t := After(INIT, run[..k]), After(INIT, run[..k + 1]);
      && |t.calls| == |sys.calls| && sys.calls[c].rowId == run[j].id
      && if MayCancel(sys.store.rows, sys.calls[c]) then
           && t.calls[c].state == Done(Confirmed)
           && run[j].id < |t.store.rows| && t.store.rows[run[j].id].status == Cancelled
           && t.store.audit == sys.store.audit + [Cancel(run[j].id)]
         else t.calls[c].state == Done(CancelRefused) && t.store == sys.store
  {
    RunKeepsRegistry(run, j);
    hide After;
    KillReachesCall(run, j, c);
    CallsKeep(run, j, j + 1, c);
    CallsKeep(run, j + 1, k, c);
    ConfirmationCancels(run, k, c);
  }

  // ------------------------------------------------------------------ how calls begin and end

  /** A cancel of an active row whose script runs registers a call for it, replacing any earlier entry; any other changes nothing. */
  lemma CancelRegisters(run: seq<Step>, k: nat)
    requires k < |run| && run[k].CancelBegin?
    ensures var sys, t, id := After(INIT, run[..k]), After(INIT, run[..k + 1]), run[k].id;
      if id < |sys.store.rows| && sys.store.rows[id].status == Active && sys.store.rows[id].scriptStatus == Some(ScriptRunning) then
        && t.store == sys.store && t.calls == sys.calls + [Call(id, run[k].actorId, run[k].canAdmin, AwaitingRpc, false)]
        && t.registry == sys.registry[id := |sys.calls|]
      else t == sys
  {
    hide After;
    PrefixStep(run, k);
    hide StoreStep;
  }

  /** What ends a call short of its confirmation, and as what. */
  predicate EndsAs(sys: System, step: Step, c: nat, outcome: Outcome) {
    match step
    case CancelRpcFailed(d) => d == c && InState(sys, c, AwaitingRpc) && outcome == Unreachable
    case CancelRpcRaised(d) => d == c && InState(sys, c, AwaitingRpc) && outcome == RpcRaised
    case CancelTimedOut(d) => d == c && InState(sys, c, AwaitingKill) && outcome == TimedOut
    case CancelConfirmed(d) =>
      && d == c && InState(sys, c, AwaitingKill) && sys.calls[c].signalled
      && outcome == if MayCancel(sys.store.rows, sys.calls[c]) then Confirmed else CancelRefused
    case _ => false
  }

  lemma NextEndsCalls(sys: System, step: Step, c: nat, outcome: Outcome)
    requires c < |sys.calls| && !sys.calls[c].state.Done?
    ensures var t := Next(sys, step);
      && c < |t.calls|
      && (t.calls[c].state == Done(outcome) <==> EndsAs(sys, step, c, outcome))
  {
    hide StoreStep;
  }

  /** An acknowledged call goes on to await the kill, and no other does. */
  lemma OnlyAckedAwaitKill(sys: System, step: Step, c: nat)
    requires c < |sys.calls| && sys.calls[c].state != AwaitingKill
    ensures var t := Next(sys, step);
      c < |t.calls| && (t.calls[c].state == AwaitingKill <==> step == CancelRpcAcked(c) && sys.calls[c].state == AwaitingRpc)
  {
    hide StoreStep, CancelRow;
  }

  ghost predicate Ended(run: seq<Step>, n: nat, c: nat, outcome: Outcome)
    requires n <= |run|
  {
    exists j :: 0 <= j < n && EndsAs(After(INIT, run[..j]), run[j], c, outcome)
  }

  lemma EndedOneMore(run: seq<Step>, n: nat, c: nat, outcome: Outcome)
    requires n < |run|
    ensures Ended(run, n + 1, c, outcome) <==> Ended(run, n, c, outcome) || EndsAs(After(INIT, run[..n]), run[n], c, outcome)
  {
    hide EndsAs, After;
  }

  lemma EndsOnlyItself(sys: System, step: Step, c: nat, outcome: Outcome)
    requires EndsAs(sys, step, c, outcome)
    ensures c < |sys.calls| && !sys.calls[c].state.Done?
  {
  }

  lemma NewCallIsOpen(sys: System, step: Step, c: nat)
    requires |sys.calls| <= c < |Next(sys, step).calls|
    ensures Next(sys, step).calls[c].state == AwaitingRpc
  {
    hide StoreStep, CancelRow;
  }

  /**
   In every run a call has an outcome exactly when the step that gives it was taken: unreachable or raised while the
   request was out, timed out while the kill was awaited, confirmed or refused once it was signalled.
   */
  lemma {:induction false} OutcomesAreEarned(run: seq<Step>, n: nat, c: nat, outcome: Outcome)
    requires n <= |run|
    ensures Ended(run, n, c, outcome) <==> HasOutcome(After(INIT, run[..n]), c, outcome)
    decreases n
  {
    NoneAtFirst(run, c, outcome);
    hide After, Next, EndsAs, Ended, HasOutcome;
    if n > 0 {
      OutcomesAreEarned(run, n - 1, c, outcome);
      EndedOneMore(run, n - 1, c, outcome);
      PrefixStep(run, n - 1);
      OutcomeStep(After(INIT, run[..n - 1]), run[n - 1], c, outcome);
    }
  }

  predicate HasOutcome(sys: System, c: nat, outcome: Outcome) {
    c < |sys.calls| && sys.calls[c].state == Done(outcome)
  }

  lemma NoneAtFirst(run: seq<Step>, c: nat, outcome: Outcome)
    ensures !Ended(run, 0, c, outcome) && !HasOutcome(After(INIT, run[..0]), c, outcome)
  {
  }

  lemma OutcomeStep(sys: System, step: Step, c: nat, outcome: Outcome)
    ensures HasOutcome(Next(sys, step), c, outcome) <==> HasOutcome(sys, c, outcome) || EndsAs(sys, step, c, outcome)
  {
    hide Next;
    if EndsAs(sys, step, c, outcome) {
      EndsOnlyItself(sys, step, c, outcome);
    }
    hide EndsAs;
    if c >= |sys.calls| {
      if c < |Next(sys, step).calls| {
        NewCallIsOpen(sys, step, c);
      }
    } else if sys.calls[c].state.Done? {
      NextKeepsSignals(sys, step, c);
    } else {
      NextEndsCalls(sys, step, c, outcome);
    }
  }

  // ------------------------------------------------------------------- the registry and the log

  /** Whoever is registered for a row is a call for it that has not ended. */
  predicate RegisteredAreOpen(sys: System) {
    forall r :: r in sys.registry ==> sys.registry[r] < |sys.calls| && !sys.calls[sys.registry[r]].state.Done?
  }

  lemma NextKeepsOpen(sys: System, step: Step)
    requires RegistryOk(sys) && RegisteredAreOpen(sys)
    ensures RegisteredAreOpen(Next(sys, step))
  {
    hide StoreStep, CancelRow;
  }

  /** In every run no call that has ended is left in the registry. */
  lemma {:induction false} NoEndedCallIsRegistered(run: seq<Step>, n: nat)
    requires n <= |run|
    ensures RegisteredAreOpen(After(INIT, run[..n]))
    decreases n
  {
    assert After(INIT, run[..0]) == INIT;
    hide After, Next;
    if n > 0 {
      hide RegisteredAreOpen, RegistryOk;
      NoEndedCallIsRegistered(run, n - 1);
      RunKeepsRegistry(run, n - 1);
      PrefixStep(run, n - 1);
      NextKeepsOpen(After(INIT, run[..n - 1]), run[n - 1]);
    }
  }

  /** How many of a row's calls ended because the agent was unreachable or the kill was not confirmed in time. */
  function FailedCalls(calls: seq<Call>, id: nat): nat {
    if calls == [] then 0
    else FailedCalls(calls[..|calls| - 1], id) + if FailedFor(calls[|calls| - 1], id) then 1 else 0
  }

  predicate FailedFor(call: Call, id: nat) {
    call.rowId == id && (call.state == Done(Unreachable) || call.state == Done(TimedOut))
  }

  lemma {:induction false} FailedCallsUpdate(calls: seq<Call>, c: nat, call: Call, id: nat)
    requires c < |calls| && !FailedFor(calls[c], id)
    ensures FailedCalls(calls[c := call], id) == FailedCalls(calls, id) + if FailedFor(call, id) then 1 else 0
    decreases |calls|
  {
    hide FailedFor;
    var n := |calls| - 1;
    if c < n {
      FailedCallsUpdate(calls[..n], c, call, id);
      assert calls[c := call][..n] == calls[..n][c := call];
    } else {
      assert calls[c := call][..n] == calls[..n];
    }
  }

  lemma SignalChangesNoOutcome(calls: seq<Call>, c: nat, id: nat)
    requires c < |calls|
    ensures FailedCalls(calls[c := calls[c].(signalled := true)], id) == FailedCalls(calls, id)
    decreases |calls|
  {
    var n := |calls| - 1;
    var signalled := calls[c := calls[c].(signalled := true)];
    if c < n {
      SignalChangesNoOutcome(calls[..n], c, id);
      assert signalled[..n] == calls[..n][c := calls[c].(signalled := true)];
    } else {
      assert signalled[..n] == calls[..n];
    }
  }

  lemma NewCallHasNotFailed(calls: seq<Call>, call: Call, id: nat)
    requires call.state == AwaitingRpc
    ensures FailedCalls(calls + [call], id) == FailedCalls(calls, id)
  {
    assert (calls + [call])[..|calls|] == calls;
  }

  lemma StepFails(sys: System, step: Step, id: nat)
    requires RegistryOk(sys)
    ensures FailedCalls(Next(sys, step).calls, id)
         == FailedCalls(sys.calls, id) + if AuditRuns.Logs(sys, step, CancelAttemptFailed(id)) then 1 else 0
  {
    hide StoreStep, CancelRow, FailedCalls, RegistryOk;
    var t := Next(sys, step);
    if IsCallStep(step) {
      if |t.calls| > |sys.calls| {
        NewCallHasNotFailed(sys.calls, t.calls[|sys.calls|], id);
      } else if !step.CancelBegin? && step.call < |sys.calls| && t.calls != sys.calls {
        assert t.calls == sys.calls[step.call := t.calls[step.call]];
        FailedCallsUpdate(sys.calls, step.call, t.calls[step.call], id);
      }
    } else if t.calls != sys.calls {
      SignalChangesNoOutcome(sys.calls, sys.registry[step.id], id);
    }
  }

  /** In every run a row's log holds one failed attempt for each of its calls that ended unreachable or timed out. */
  lemma {:induction false} FailedAttemptsAreAudited(run: seq<Step>, n: nat, id: nat)
    requires n <= |run|
    ensures var sys := After(INIT, run[..n]); multiset(sys.store.audit)[CancelAttemptFailed(id)] == FailedCalls(sys.calls, id)
    decreases n
  {
    assert After(INIT, run[..0]) == INIT;
    hide After, Next, FailedCalls;
    assert n == 0 ==> FailedCalls(INIT.calls, id) == 0 by { NoCallHasFailed(id); }
    if n > 0 {
      hide AuditRuns.Logs;
      FailedAttemptsAreAudited(run, n - 1, id);
      RunKeepsRegistry(run, n - 1);
      PrefixStep(run, n - 1);
      StepFails(After(INIT, run[..n - 1]), run[n - 1], id);
      AuditRuns.StepLogs(After(INIT, run[..n - 1]), run[n - 1], CancelAttemptFailed(id));
    }
  }

  lemma NoCallHasFailed(id: nat)
    ensures FailedCalls([], id) == 0
  {
  }
}
