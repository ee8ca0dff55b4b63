/** The suspended cancel, over every interleaving and any number of concurrent calls. */
module CancelRuns {
  import opened Prelude
  import opened Reservations
  import opened ReservationService
  import opened Scheduler
  import opened Protocol
  import opened RowHistory
  import opened Runs

  /** Step `i` of the run is the one that registered call `c`. */
  ghost predicate Begins(run: seq<Step>, i: nat, c: nat) {
    && i < |run| && run[i].CancelBegin?
    && |After(INIT, run[..i]).calls| == c
    && |After(INIT, run[..i + 1]).calls| == c + 1
  }

  /** Every registry entry belongs to a call for that row. */
  predicate RegistryOk(sys: System) {
    forall r :: r in sys.registry ==> sys.registry[r] < |sys.calls| && sys.calls[sys.registry[r]].rowId == r
  }

  lemma NextKeepsCalls(sys: System, step: Step)
    requires RegistryOk(sys)
    ensures var t := Next(sys, step);
      && RegistryOk(t)
      && |sys.calls| <= |t.calls|
      && (forall c :: 0 <= c < |sys.calls| ==> t.calls[c].rowId == sys.calls[c].rowId)
      && (|t.calls| > |sys.calls| ==>
            step.CancelBegin? && |t.calls| == |sys.calls| + 1 && !t.calls[|sys.calls|].signalled
            && t.calls[|sys.calls|].rowId == step.id && step.id < |sys.store.rows|
            && sys.store.rows[step.id].scriptStatus == Some(ScriptRunning))
      && (forall c :: 0 <= c < |sys.calls| && t.calls[c].signalled && !sys.calls[c].signalled ==>
            step.ScriptFinished? && step.killed && step.id == sys.calls[c].rowId && step.id < |sys.store.rows|)
  {
    hide StoreStep, CancelRow;
  }

  lemma {:induction false} RunKeepsRegistry(run: seq<Step>, n: nat)
    requires n <= |run|
    ensures RegistryOk(After(INIT, run[..n]))
    decreases n
  {
    assert After(INIT, run[..0]) == INIT;
    hide After, Next;
    if n > 0 {
      hide RegistryOk;
      RunKeepsRegistry(run, n - 1);
      PrefixStep(run, n - 1);
      NextKeepsCalls(After(INIT, run[..n - 1]), run[n - 1]);
    }
  }

  lemma {:induction false} CallBegan(run: seq<Step>, n: nat, c: nat) returns (i: nat)
    requires n <= |run| && c < |After(INIT, run[..n]).calls|
    ensures Begins(run, i, c) && i < n
    ensures run[i].id == After(INIT, run[..n]).calls[c].rowId
    ensures var s := After(INIT, run[..i]).store;
      run[i].id < |s.rows| && s.rows[run[i].id].scriptStatus == Some(ScriptRunning)
    decreases n
  {
    NoCallsAtFirst(run, n, c);
    hide After, Next;
    var before := After(INIT, run[..n - 1]);
    RunKeepsRegistry(run, n - 1);
    PrefixStep(run, n - 1);
    NextKeepsCalls(before, run[n - 1]);
    if c < |before.calls| {
      i := CallBegan(run, n - 1, c);
    } else {
      i := n - 1;
    }
  }

  lemma NoCallsAtFirst(run: seq<Step>, n: nat, c: nat)
    requires n <= |run| && c < |After(INIT, run[..n]).calls|
    ensures n > 0
  {
    hide Next;
  }

  /** An event object is only set by a kill confirmation handled after the call registered it. */
  lemma {:induction false} SignalHasCause(run: seq<Step>, n: nat, c: nat) returns (i: nat, j: nat)
    requires n <= |run| && c < |After(INIT, run[..n]).calls| && After(INIT, run[..n]).calls[c].signalled
    ensures Begins(run, i, c) && i < j < n
    ensures run[j].ScriptFinished? && run[j].killed && run[j].id == After(INIT, run[..n]).calls[c].rowId
    ensures run[j].id < |After(INIT, run[..j]).store.rows|
    ensures var s := After(INIT, run[..i]).store;
      run[j].id < |s.rows| && s.rows[run[j].id].scriptStatus == Some(ScriptRunning)
    decreases n
  {
    NoCallsAtFirst(run, n, c);
    hide After, Next;
    var before := After(INIT, run[..n - 1]);
    RunKeepsRegistry(run, n - 1);
    PrefixStep(run, n - 1);
    NextKeepsCalls(before, run[n - 1]);
    if before.calls[c].signalled {
      i, j := SignalHasCause(run, n - 1, c);
    } else {
      i := CallBegan(run, n - 1, c);
      j := n - 1;
    }
  }

  lemma ConfirmingStep(sys: System, step: Step)
    requires IsCallStep(step) && Next(sys, step).store.rows != sys.store.rows
    ensures step.CancelConfirmed? && step.call < |sys.calls| && sys.calls[step.call].signalled
    ensures var id := sys.calls[step.call].rowId;
      id < |sys.store.rows| && Next(sys, step).store.rows == sys.store.rows[id := sys.store.rows[id].(status := Cancelled)]
  {
    hide StoreStep;
  }

  lemma KillConfirmationEnds(run: seq<Step>, j: nat, id: nat)
    requires j < |run| && run[j].ScriptFinished? && run[j].id == id
    requires id < |After(INIT, run[..j]).store.rows| && After(INIT, run[..j]).store.rows[id].scriptStatus.Some?
    ensures var t := After(INIT, run[..j + 1]).store; id < |t.rows| && ScriptTerminal(t.rows[id].scriptStatus)
  {
    hide After, Next;
    PrefixStep(run, j);
    KillEndsScript(After(INIT, run[..j]), run[j]);
  }

  lemma ScriptStaysFired(run: seq<Step>, i: nat, j: nat, id: nat)
    requires i <= j <= |run|
    requires id < |After(INIT, run[..i]).store.rows| && After(INIT, run[..i]).store.rows[id].scriptStatus.Some?
    ensures var t := After(INIT, run[..j]).store;
      && id < |t.rows| && t.rows[id].scriptStatus.Some?
      && (ScriptTerminal(After(INIT, run[..i]).store.rows[id].scriptStatus) ==> ScriptTerminal(t.rows[id].scriptStatus))
  {
    assert run[..j][..i] == run[..i];
    RunEvolves(run[..j], i, id);
  }

  lemma FiredThenKilled(run: seq<Step>, i: nat, j: nat, id: nat)
    requires i <= j < |run| && run[j].ScriptFinished? && run[j].id == id
    requires id < |After(INIT, run[..i]).store.rows| && After(INIT, run[..i]).store.rows[id].scriptStatus.Some?
    ensures var t := After(INIT, run[..j + 1]).store; id < |t.rows| && ScriptTerminal(t.rows[id].scriptStatus)
  {
    hide After;
    ScriptStaysFired(run, i, j, id);
    KillConfirmationEnds(run, j, id);
  }

  /** After the kill confirmation the script never runs again. */
  lemma KilledStaysEnded(run: seq<Step>, i: nat, j: nat, k: nat, id: nat)
    requires i <= j < k <= |run| && run[j].ScriptFinished? && run[j].id == id
    requires id < |After(INIT, run[..i]).store.rows| && After(INIT, run[..i]).store.rows[id].scriptStatus.Some?
    ensures var t := After(INIT, run[..k]).store; id < |t.rows| && ScriptTerminal(t.rows[id].scriptStatus)
  {
    hide After;
    FiredThenKilled(run, i, j, id);
    ScriptStaysFired(run, j + 1, k, id);
  }

  /**
   A step of a suspended cancel touches the table only to cancel its own row, and only if
   a `killed_by_corelab` finish for that row was handled after the call registered; by then
   the script is no longer running. RPC failure, a wrong reply and a timeout touch no row.
   */
  lemma CancelNeedsConfirmedKill(run: seq<Step>, k: nat) returns (i: nat, j: nat)
    requires k < |run| && IsCallStep(run[k])
    requires Next(After(INIT, run[..k]), run[k]).store.rows != After(INIT, run[..k]).store.rows
    ensures run[k].CancelConfirmed?
    ensures var sys := After(INIT, run[..k]);
      && run[k].call < |sys.calls|
      && var id := sys.calls[run[k].call].rowId;
      && id < |sys.store.rows|
      && Next(sys, run[k]).store.rows == sys.store.rows[id := sys.store.rows[id].(status := Cancelled)]
      && ScriptTerminal(sys.store.rows[id].scriptStatus)
      && Begins(run, i, run[k].call) && i < j < k
      && run[j].ScriptFinished? && run[j].killed && run[j].id == id
  {
    hide After, Next;
    var sys := After(INIT, run[..k]);
    ConfirmingStep(sys, run[k]);
    i, j := SignalHasCause(run, k, run[k].call);
    KilledStaysEnded(run, i, j, k, sys.calls[run[k].call].rowId);
  }

  lemma KillEndsScript(sys: System, step: Step)
    requires step.ScriptFinished? && step.id < |sys.store.rows| && sys.store.rows[step.id].scriptStatus.Some?
    ensures var t := Next(sys, step).store;
      step.id < |t.rows| && ScriptTerminal(t.rows[step.id].scriptStatus)
  {
    hide CallStep, Tick, CancelRow;
  }

  /** Call `c` is not signalled, and no registry entry leads to it. */
  predicate Lost(sys: System, c: nat) {
    && RegistryOk(sys) && c < |sys.calls| && !sys.calls[c].signalled
    && (sys.calls[c].rowId in sys.registry ==> sys.registry[sys.calls[c].rowId] != c)
  }

  lemma NextKeepsLost(sys: System, step: Step, c: nat)
    requires Lost(sys, c)
    ensures Lost(Next(sys, step), c)
    ensures Next(sys, step).calls[c].state == Done(Confirmed) ==> sys.calls[c].state == Done(Confirmed)
  {
    hide StoreStep, CancelRow;
    NextKeepsCalls(sys, step);
  }

  /** A cancel whose registry entry a second cancel overwrote, or popped, is never confirmed. */
  lemma {:induction false} LostRegistrationIsForever(sys: System, run: seq<Step>, c: nat)
    requires Lost(sys, c)
    ensures Lost(After(sys, run), c)
    ensures After(sys, run).calls[c].state == Done(Confirmed) ==> sys.calls[c].state == Done(Confirmed)
  {
    if run != [] {
      hide Lost, Next;
      var n := |run| - 1;
      LostRegistrationIsForever(sys, run[..n], c);
      NextKeepsLost(After(sys, run[..n]), run[n], c);
    }
  }
}
