/** Over every run the table meets its own constraints, and what follows for whole runs. */
module ConstraintRuns {
  import opened Prelude
  import opened Reservations
  import opened Conflicts
  import opened ReservationService
  import opened Scheduler
  import opened Protocol
  import opened RowHistory
  import opened Admission
  import Runs
  import CapacityRuns

  ghost predicate AllChecked(rows: seq<Row>) {
    forall i :: 0 <= i < |rows| ==> DbChecks(rows[i])
  }

  /** The same rows with the same windows and trigger times. */
  ghost predicate KeepsTimes(before: seq<Row>, after: seq<Row>) {
    && |before| == |after|
    && forall i :: 0 <= i < |before| ==>
         after[i].startAt == before[i].startAt && after[i].endAt == before[i].endAt && after[i].scriptAt == before[i].scriptAt
  }

  lemma {:induction false} PhaseKeepsTimes(phase: Phase, s: Store, order: seq<nat>, m: Moment)
    ensures KeepsTimes(s.rows, RunPhase(phase, s, order, m).rows)
  {
    if order != [] {
      PhaseKeepsTimes(phase, s, order[..|order| - 1], m);
    }
  }

  lemma TickKeepsTimes(s: Store, o: Orders, m: Moment)
    ensures KeepsTimes(s.rows, Tick(s, o, m).rows)
  {
    hide RunPhase;
    var s1 := RunPhase(Promote, s, o.promote, m);
    var s2 := RunPhase(Close, s1, o.close, m);
    var s3 := RunPhase(Dispatch, s2, o.dispatch, m);
    PhaseKeepsTimes(Promote, s, o.promote, m);
    PhaseKeepsTimes(Close, s1, o.close, m);
    PhaseKeepsTimes(Dispatch, s2, o.dispatch, m);
    PhaseKeepsTimes(Watch, s3, o.watch, m);
  }

  lemma CallStepKeepsTimes(sys: System, step: Step)
    requires IsCallStep(step)
    ensures KeepsTimes(sys.store.rows, Next(sys, step).store.rows)
  {
    hide CallStep, StoreStep;
    Runs.CallStepStore(sys, step);
  }

  lemma StoreStepKeepsTimes(s: Store, step: Step)
    requires !step.CreateBatch? && !step.ModifyOne?
    ensures KeepsTimes(s.rows, StoreStep(s, step).rows)
  {
    hide Tick, OrdersCover;
    if step.TickAt? {
      TickKeepsTimes(s, step.orders, step.moment);
    }
  }

  lemma OtherStepsKeepTimes(sys: System, step: Step)
    requires !step.CreateBatch? && !step.ModifyOne?
    ensures KeepsTimes(sys.store.rows, Next(sys, step).store.rows)
  {
    hide CallStep, StoreStep, KeepsTimes;
    if IsCallStep(step) {
      CallStepKeepsTimes(sys, step);
    } else {
      StoreStepKeepsTimes(sys.store, step);
    }
  }

  /** In every run, whatever was refused or committed, every row has a proper window with its trigger time inside. */
  lemma {:induction false} EveryRowMeetsConstraints(run: seq<Step>)
    ensures AllChecked(After(INIT, run).store.rows)
  {
    if run != [] {
      var sys, step := After(INIT, run[..|run| - 1]), run[|run| - 1];
      EveryRowMeetsConstraints(run[..|run| - 1]);
      hide After;
      match step
      case CreateBatch(req, world) =>
        if CreateAccepts(req, sys.store.rows, world) {
          InsertedRowsPassChecks(req, sys.store.rows, world);
          assert forall k :: 0 <= k < |req.items| ==> NewRows(req)[k] in NewRows(req);
        }
      case ModifyOne(id, req, world, policy) =>
      case _ => OtherStepsKeepTimes(sys, step);
    }
  }

  /** Every step's own peaks fit: the exact condition for a run to keep every card safe. */
  ghost predicate EveryStepFits(run: seq<Step>, cards: map<nat, Option<nat>>) {
    forall k :: 0 <= k < |run| ==>
      CapacityRuns.FixedCards(run[k], cards) && CapacityRuns.StepFits(After(INIT, run[..k]), run[k], cards)
  }

  lemma FittingRunIsSafe(run: seq<Step>, cards: map<nat, Option<nat>>)
    requires EveryStepFits(run, cards)
    ensures CapacitySafe(After(INIT, run).store.rows, cards)
  {
    hide After, CapacitySafe;
    CapacityRuns.FittingStepsKeepSafe(run, |run|, cards);
    assert run[..|run|] == run;
  }

  /** So where every step's peaks fit no exclusive reservation shares an instant of its card with another. */
  lemma RunKeepsExclusiveApart(run: seq<Step>, cards: map<nat, Option<nat>>)
    requires EveryStepFits(run, cards)
    ensures ExclusiveApart(After(INIT, run).store.rows)
  {
    hide After, CapacitySafe, EveryStepFits, AllChecked;
    FittingRunIsSafe(run, cards);
    EveryRowMeetsConstraints(run);
    ProperWindows(After(INIT, run).store.rows);
    CapacityKeepsExclusiveApart(After(INIT, run).store.rows, cards);
  }

  lemma ProperWindows(rows: seq<Row>)
    requires AllChecked(rows)
    ensures forall i :: 0 <= i < |rows| ==> rows[i].startAt < rows[i].endAt
  {
    assert forall i :: 0 <= i < |rows| ==> DbChecks(rows[i]);
  }

  /** And memory fits everywhere, lone rows included, exactly when no single live row exceeds its card. */
  lemma RunFitsMemoryExactly(run: seq<Step>, cards: map<nat, Option<nat>>)
    requires EveryStepFits(run, cards)
    ensures var rows := After(INIT, run).store.rows;
            FitsMemory(rows, cards) <==> forall i :: 0 <= i < |rows| ==> !Oversized(rows[i], cards)
  {
    hide After, CapacitySafe, EveryStepFits, AllChecked;
    FittingRunIsSafe(run, cards);
    EveryRowMeetsConstraints(run);
    ProperWindows(After(INIT, run).store.rows);
    MemoryFitsExactly(After(INIT, run).store.rows, cards);
  }

  // ------------------------------------------------------------------- ended rows are left alone

  lemma OnlyTicksSend(sys: System, step: Step)
    requires !step.TickAt?
    ensures Next(sys, step).store.sent == sys.store.sent
  {
    if IsCallStep(step) {
      Runs.CallStepStore(sys, step);
    }
  }

  lemma TickSparesEnded(s: Store, o: Orders, m: Moment, id: nat)
    requires id < |s.rows| && Terminal(s.rows[id].status)
    ensures SendTimes(Tick(s, o, m).sent, id) == SendTimes(s.sent, id)
  {
    hide SendTimes, RunPhase;
    var s1 := RunPhase(Promote, s, o.promote, m);
    var s2 := RunPhase(Close, s1, o.close, m);
    var s3 := RunPhase(Dispatch, s2, o.dispatch, m);
    Runs.LeavesTerminal(Promote, s, o.promote, m, id);
    Runs.LeavesTerminal(Close, s1, o.close, m, id);
    Runs.LeavesTerminal(Dispatch, s2, o.dispatch, m, id);
    Runs.LeavesTerminal(Watch, s3, o.watch, m, id);
  }

  lemma StepSparesEnded(sys: System, step: Step, id: nat)
    requires id < |sys.store.rows| && Terminal(sys.store.rows[id].status)
    ensures SendTimes(Next(sys, step).store.sent, id) == SendTimes(sys.store.sent, id)
  {
    hide SendTimes, Tick;
    if step.TickAt? {
      TickSparesEnded(sys.store, step.orders, step.moment, id);
    } else {
      OnlyTicksSend(sys, step);
    }
  }

  /** Once a row has ended, no later step asks the agent to run its script. */
  lemma {:induction false} NoRequestAfterEnd(run: seq<Step>, k: nat, id: nat)
    requires k <= |run| && id < |After(INIT, run[..k]).store.rows|
    requires Terminal(After(INIT, run[..k]).store.rows[id].status)
    ensures SendTimes(After(INIT, run).store.sent, id) == SendTimes(After(INIT, run[..k]).store.sent, id)
    decreases |run|
  {
    hide SendTimes, After, Next, Terminal;
    var n := |run|;
    if k == n {
      assert run[..k] == run;
    } else {
      var before := run[..n - 1];
      assert before[..k] == run[..k];
      NoRequestAfterEnd(before, k, id);
      StaysEnded(before, k, id);
      LastStep(run);
      StepSparesEnded(After(INIT, before), run[n - 1], id);
    }
  }

  lemma StaysEnded(run: seq<Step>, k: nat, id: nat)
    requires k <= |run| && id < |After(INIT, run[..k]).store.rows|
    requires Terminal(After(INIT, run[..k]).store.rows[id].status)
    ensures id < |After(INIT, run).store.rows| && Terminal(After(INIT, run).store.rows[id].status)
  {
    hide After;
    Runs.TerminalIsForever(run, k, id);
  }

  lemma LastStep(run: seq<Step>)
    requires run != []
    ensures After(INIT, run) == Next(After(INIT, run[..|run| - 1]), run[|run| - 1])
  {
    hide Next;
  }

  /**
   In any run, a tick that comes only after a scheduled row's whole window opens and closes the row at once,
   and neither that tick nor anything after it asks for its script.
   */
  lemma MissedWindowNeverFiresInRun(run: seq<Step>, k: nat, id: nat)
    requires k < |run| && run[k].TickAt?
    requires var s := After(INIT, run[..k]).store;
             && OrdersCover(run[k].orders, |s.rows|)
             && id < |s.rows| && s.rows[id].status == Scheduled && s.rows[id].endAt <= run[k].moment.now
             && s.rows[id].serverId in run[k].moment.servers
    ensures var s, t := After(INIT, run[..k]).store, After(INIT, run).store;
            id < |t.rows| && t.rows[id].status == CloseTarget(s.rows[id]) && SendTimes(t.sent, id) == []
  {
    hide After, Terminal, SendTimes, CloseTarget;
    MissedAtTick(run, k, id);
    Runs.TerminalIsForever(run, k + 1, id);
    NoRequestAfterEnd(run, k + 1, id);
  }

  lemma MissedAtTick(run: seq<Step>, k: nat, id: nat)
    requires k < |run| && run[k].TickAt?
    requires var s := After(INIT, run[..k]).store;
             && OrdersCover(run[k].orders, |s.rows|)
             && id < |s.rows| && s.rows[id].status == Scheduled && s.rows[id].endAt <= run[k].moment.now
             && s.rows[id].serverId in run[k].moment.servers
    ensures var s, t := After(INIT, run[..k]).store, After(INIT, run[..k + 1]).store;
            && id < |t.rows| && t.rows[id].status == CloseTarget(s.rows[id]) && Terminal(t.rows[id].status)
            && SendTimes(t.sent, id) == []
  {
    hide After, Replay, LegalAudit, SendTimes, DispatchCount;
    var sys, m, o := After(INIT, run[..k]), run[k].moment, run[k].orders;
    Runs.PrefixStep(run, k);
    assert Next(sys, run[k]).store == Tick(sys.store, o, m);
    hide Next, Tick;
    Runs.RunKeepsSound(run[..k], id);
    EveryRowMeetsConstraints(run[..k]);
    Runs.MissedWindowNeverFires(sys.store, o, m, id);
  }
}
