/** Over every run, what a row's script status says of the events handled for it, and how its window then closes. */
module ScriptEnds {
  import opened Prelude
  import opened Reservations
  import opened ReservationService
  import opened Scheduler
  import opened Protocol
  import opened RowHistory
  import opened TickEffects
  import opened Runs

  /** Step `j` is a finished event that finds the row's script running. */
  ghost predicate EndedBy(run: seq<Step>, j: nat, id: nat) {
    && j < |run| && run[j].ScriptFinished? && run[j].id == id
    && id < |After(INIT, run[..j]).store.rows|
    && After(INIT, run[..j]).store.rows[id].scriptStatus == Some(ScriptRunning)
  }

  /** What such an event reports. */
  predicate Says(step: Step, end: ScriptStatus)
    requires step.ScriptFinished?
  {
    match end
    case ScriptCompleted => !step.killed && step.exitZero
    case ScriptFailed => !step.killed && !step.exitZero
    case ScriptKilled => step.killed
    case ScriptRunning => false
  }

  ghost predicate Reported(run: seq<Step>, n: nat, id: nat, end: ScriptStatus) {
    exists j :: 0 <= j < n && EndedBy(run, j, id) && Says(run[j], end)
  }

  // ------------------------------------------------------------------------- single steps

  /** The script status is left alone, or a script that had none is now running. */
  predicate StaysOrStarts(a: Option<ScriptStatus>, b: Option<ScriptStatus>) {
    b == a || (a.None? && b == Some(ScriptRunning))
  }

  lemma TickStays(s: Store, o: Orders, m: Moment, id: nat)
    requires id < |s.rows| && OrdersCover(o, |s.rows|)
    ensures var t := Tick(s, o, m); |t.rows| == |s.rows| && StaysOrStarts(s.rows[id].scriptStatus, t.rows[id].scriptStatus)
  {
    hide Tick, SendTimes, OrdersCover, StoryOf;
    TickDecidesEachRow(s, o, m, id);
  }

  lemma TickKeepsCount(s: Store, o: Orders, m: Moment)
    requires OrdersCover(o, |s.rows|)
    ensures |Tick(s, o, m).rows| == |s.rows|
  {
    PhaseKeepsCount(Promote, s, o.promote, m);
    var s1 := RunPhase(Promote, s, o.promote, m);
    PhaseKeepsCount(Close, s1, o.close, m);
    var s2 := RunPhase(Close, s1, o.close, m);
    PhaseKeepsCount(Dispatch, s2, o.dispatch, m);
    PhaseKeepsCount(Watch, RunPhase(Dispatch, s2, o.dispatch, m), o.watch, m);
  }

  lemma {:induction false} PhaseKeepsCount(phase: Phase, s: Store, order: seq<nat>, m: Moment)
    ensures |RunPhase(phase, s, order, m).rows| == |s.rows|
  {
    if order != [] {
      hide FailureCount, StartedSeen;
      PhaseKeepsCount(phase, s, order[..|order| - 1], m);
    }
  }

  lemma StoreStepStays(s: Store, step: Step, id: nat)
    requires !step.TickAt?
    requires step.ScriptFinished? && step.id == id && id < |s.rows| ==> s.rows[id].scriptStatus != Some(ScriptRunning)
    ensures var t := StoreStep(s, step);
      && |s.rows| <= |t.rows|
      && (id < |t.rows| ==>
            StaysOrStarts(if id < |s.rows| then s.rows[id].scriptStatus else None, t.rows[id].scriptStatus))
  {
  }

  lemma FinishEnds(s: Store, killed: bool, exitZero: bool, id: nat, end: ScriptStatus)
    requires id < |s.rows| && s.rows[id].scriptStatus == Some(ScriptRunning)
    ensures var t := OnScriptFinished(s, id, killed, exitZero);
      && |t.rows| == |s.rows| && ScriptTerminal(t.rows[id].scriptStatus)
      && (t.rows[id].scriptStatus == Some(end) <==> Says(ScriptFinished(id, killed, exitZero), end))
  {
  }

  lemma CallStepStays(sys: System, step: Step, id: nat)
    requires IsCallStep(step)
    ensures var s, t := sys.store, Next(sys, step).store;
      |t.rows| == |s.rows| && (id < |s.rows| ==> t.rows[id].scriptStatus == s.rows[id].scriptStatus)
  {
    hide CallStep;
    CallStepStore(sys, step);
  }

  /** Any step but a finish that finds the script running. */
  lemma OtherStepStays(sys: System, step: Step, id: nat)
    requires step.ScriptFinished? && step.id == id && id < |sys.store.rows| ==> sys.store.rows[id].scriptStatus != Some(ScriptRunning)
    ensures var s, t := sys.store, Next(sys, step).store;
      && |s.rows| <= |t.rows|
      && (id < |t.rows| ==>
            StaysOrStarts(if id < |s.rows| then s.rows[id].scriptStatus else None, t.rows[id].scriptStatus))
  {
    hide CallStep, Tick, OrdersCover, Create, Modify, CancelRow, CancelRows, OnScriptStarted, OnScriptFinished;
    if IsCallStep(step) {
      CallStepStays(sys, step, id);
    } else if step.TickAt? {
      if OrdersCover(step.orders, |sys.store.rows|) {
        TickKeepsCount(sys.store, step.orders, step.moment);
        if id < |sys.store.rows| {
          TickStays(sys.store, step.orders, step.moment, id);
        }
      }
    } else {
      hide StoreStep;
      StoreStepStays(sys.store, step, id);
    }
  }

  // -------------------------------------------------------------------------------- runs

  /** What is known of a row's script after n steps. */
  ghost predicate Told(run: seq<Step>, n: nat, id: nat, end: ScriptStatus)
    requires n <= |run|
  {
    var rows := After(INIT, run[..n]).store.rows;
    if id < |rows| then Reported(run, n, id, end) <==> rows[id].scriptStatus == Some(end)
    else !Reported(run, n, id, end)
  }

  lemma ReportedOneMore(run: seq<Step>, n: nat, id: nat, end: ScriptStatus)
    ensures Reported(run, n + 1, id, end) <==> Reported(run, n, id, end) || (EndedBy(run, n, id) && Says(run[n], end))
  {
    hide EndedBy, Says;
  }

  lemma NothingTold(run: seq<Step>, id: nat, end: ScriptStatus)
    ensures Told(run, 0, id, end)
  {
  }

  lemma {:induction false} ScriptsAreTold(run: seq<Step>, n: nat, id: nat, end: ScriptStatus)
    requires n <= |run| && end != ScriptRunning
    ensures Told(run, n, id, end)
    decreases n
  {
    NothingTold(run, id, end);
    hide After, Next, Reported, Says;
    if n > 0 {
      ScriptsAreTold(run, n - 1, id, end);
      ReportedOneMore(run, n - 1, id, end);
      PrefixStep(run, n - 1);
      TellsOneMore(run, n - 1, id, end);
    }
  }

  lemma TellsOneMore(run: seq<Step>, n: nat, id: nat, end: ScriptStatus)
    requires n < |run| && end != ScriptRunning
    ensures var s, t := After(INIT, run[..n]).store, Next(After(INIT, run[..n]), run[n]).store;
      && |s.rows| <= |t.rows|
      && (EndedBy(run, n, id) ==> (t.rows[id].scriptStatus == Some(end) <==> Says(run[n], end)))
      && (!EndedBy(run, n, id) && id < |t.rows| ==>
            StaysOrStarts(if id < |s.rows| then s.rows[id].scriptStatus else None, t.rows[id].scriptStatus))
  {
    var sys := After(INIT, run[..n]);
    if EndedBy(run, n, id) {
      FinishEnds(sys.store, run[n].killed, run[n].exitZero, id, end);
      hide After, OnScriptFinished, Says;
    } else {
      OtherStepStays(sys, run[n], id);
      hide After, Next;
    }
  }

  /** In every run a script counts as completed, failed or killed exactly when the finish that found it running said so. */
  lemma ScriptEndsAsReported(run: seq<Step>, id: nat, end: ScriptStatus)
    requires id < |After(INIT, run).store.rows| && end != ScriptRunning
    ensures After(INIT, run).store.rows[id].scriptStatus == Some(end)
            <==> exists j :: 0 <= j < |run| && EndedBy(run, j, id) && Says(run[j], end)
  {
    hide After, EndedBy, Says;
    assert run[..|run|] == run;
    ScriptsAreTold(run, |run|, id, end);
  }

  /** At most one finish ever finds a row's script running. */
  lemma EndsOnce(run: seq<Step>, i: nat, j: nat, id: nat)
    requires EndedBy(run, i, id) && EndedBy(run, j, id)
    ensures i == j
  {
    if i < j {
      EndedStaysEnded(run, i, j, id);
    } else if j < i {
      EndedStaysEnded(run, j, i, id);
    }
  }

  lemma EndedStaysEnded(run: seq<Step>, i: nat, j: nat, id: nat)
    requires EndedBy(run, i, id) && i < j <= |run|
    ensures id < |After(INIT, run[..j]).store.rows| && After(INIT, run[..j]).store.rows[id].scriptStatus != Some(ScriptRunning)
  {
    hide After, EndedBy;
    JustEnded(run, i, id);
    assert run[..j][..i + 1] == run[..i + 1];
    TerminalIsForever(run[..j], i + 1, id);
  }

  lemma JustEnded(run: seq<Step>, i: nat, id: nat)
    requires EndedBy(run, i, id)
    ensures i < |run| && id < |After(INIT, run[..i + 1]).store.rows| && ScriptTerminal(After(INIT, run[..i + 1]).store.rows[id].scriptStatus)
  {
    hide After;
    var sys, step := After(INIT, run[..i]), run[i];
    PrefixStep(run, i);
    FinishEnds(sys.store, step.killed, step.exitZero, id, ScriptKilled);
    assert Next(sys, step).store == OnScriptFinished(sys.store, id, step.killed, step.exitZero);
    hide Next, OnScriptFinished, Says;
  }

  /**
   In every run, the tick at or after a row's end that finds it open on a known server closes it: as failed exactly
   when the finish that found its script running said killed or a nonzero exit, and as completed otherwise.
   */
  lemma ClosesAsReported(run: seq<Step>, k: nat, id: nat)
    requires k < |run| && run[k].TickAt?
    requires var rows := After(INIT, run[..k]).store.rows;
      && id < |rows| && OrdersCover(run[k].orders, |rows|) && !Terminal(rows[id].status)
      && rows[id].startAt <= run[k].moment.now && rows[id].endAt <= run[k].moment.now
      && rows[id].serverId in run[k].moment.servers
    ensures var wentWrong := exists j :: 0 <= j < k && EndedBy(run, j, id) && (run[j].killed || !run[j].exitZero);
      var rows := After(INIT, run[..k + 1]).store.rows;
      id < |rows| && rows[id].status == if wentWrong then Failed else Completed
  {
    hide After, EndedBy, SendTimes, StoryOf, OrdersCover;
    var sys := After(INIT, run[..k]);
    PrefixStep(run, k);
    assert Next(sys, run[k]).store == Tick(sys.store, run[k].orders, run[k].moment);
    hide Tick, Next;
    TickDecidesEachRow(sys.store, run[k].orders, run[k].moment, id);
    ScriptsAreTold(run, k, id, ScriptFailed);
    ScriptsAreTold(run, k, id, ScriptKilled);
    assert forall j :: 0 <= j < k && EndedBy(run, j, id) ==>
        ((run[j].killed || !run[j].exitZero) <==> Says(run[j], ScriptFailed) || Says(run[j], ScriptKilled)) by {
      EndedIsFinish(run, id);
    }
  }

  lemma EndedIsFinish(run: seq<Step>, id: nat)
    ensures forall j: nat :: EndedBy(run, j, id) ==> j < |run| && run[j].ScriptFinished?
  {
    hide After;
  }
}
