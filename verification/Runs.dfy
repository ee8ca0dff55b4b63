/** Whole runs from the empty system: what holds after any interleaving of steps. */
module Runs {
  import opened Prelude
  import opened Reservations
  import opened Conflicts
  import opened ReservationService
  import opened Admission
  import opened Scheduler
  import opened Protocol
  import opened RowHistory

  // ----------------------------------------------------------- every step keeps a row sound

  lemma InsertKeepsSound(s: Store, req: CreateRequest, id: nat)
    requires Sound(s, id)
    ensures Sound(Inserted(s, req), id) && Evolves(s, Inserted(s, req), id)
  {
    hide Replay, LegalAudit, SendTimes, DispatchCount;
    ReplayInserted(s.audit, |s.rows|, |req.items|, req.groupId, id);
    assert NewRows(req) == seq(|req.items|, k requires 0 <= k < |req.items| => NewRow(req, k));
  }

  lemma ModifyKeepsSound(s: Store, v: nat, req: ModifyRequest, world: World, policy: OnRefusal, id: nat)
    requires Sound(s, id)
    ensures var t := Modify(s, v, req, world, policy).0; Sound(t, id) && Evolves(s, t, id)
  {
    hide Replay, LegalAudit, SendTimes, DispatchCount, ModifyRow;
    var t := Modify(s, v, req, world, policy).0;
    if v < |s.rows| && t != s {
      var r := ModifyRow(s.rows, v, req, world).0;
      var w := s.(rows := s.rows[v := r]);
      ModifiedRowKeepsSound(s, v, req, world, id);
      if t.audit != s.audit {
        NoteKeepsSound(w, Modified(v), id);
      }
    }
  }

  lemma ModifiedRowKeepsSound(s: Store, v: nat, req: ModifyRequest, world: World, id: nat)
    requires Sound(s, id) && v < |s.rows|
    ensures var t := s.(rows := s.rows[v := ModifyRow(s.rows, v, req, world).0]); Sound(t, id) && Evolves(s, t, id)
  {
    hide Replay, LegalAudit, SendTimes, DispatchCount;
    var r := ModifyRow(s.rows, v, req, world).0;
    if ModifyGuard(s.rows[v], req).None? {
      assert r == s.rows[v].(startAt := r.startAt, endAt := r.endAt, script := r.script, scriptAt := r.scriptAt, maxRuntime := r.maxRuntime);
      hide ModifyRow;
    } else {
      assert r == s.rows[v];
    }
  }

  lemma CancelledRowKeepsSound(s: Store, v: nat, id: nat)
    requires Sound(s, id) && v < |s.rows| && !Terminal(s.rows[v].status)
    ensures var t := Noted(s.(rows := s.rows[v := s.rows[v].(status := Cancelled)]), Cancel(v));
      Sound(t, id) && Evolves(s, t, id)
  {
    hide Replay, LegalAudit, SendTimes, DispatchCount;
    ReplayPush(s.audit, Cancel(v), id);
  }

  lemma CancelKeepsSound(s: Store, v: nat, actorId: nat, canAdmin: bool, id: nat)
    requires Sound(s, id)
    ensures var t := CancelRow(s, v, actorId, canAdmin).0; Sound(t, id) && Evolves(s, t, id)
  {
    hide Replay, LegalAudit, SendTimes, DispatchCount;
    if v < |s.rows| && !Terminal(s.rows[v].status) {
      CancelledRowKeepsSound(s, v, id);
    }
  }

  lemma CancelGroupKeepsSound(s: Store, groupId: nat, actorId: nat, canAdmin: bool, id: nat)
    requires Sound(s, id)
    ensures var t := CancelRows(s, groupId, actorId, canAdmin).0; Sound(t, id) && Evolves(s, t, id)
  {
    hide Replay, LegalAudit, SendTimes, DispatchCount;
    var t := CancelRows(s, groupId, actorId, canAdmin).0;
    if t != s {
      ReplayPush(s.audit, t.audit[|s.audit|], id);
    }
  }

  lemma StartedKeepsSound(s: Store, v: nat, id: nat)
    requires Sound(s, id)
    ensures Sound(OnScriptStarted(s, v), id) && Evolves(s, OnScriptStarted(s, v), id)
  {
    hide Replay, LegalAudit, SendTimes, DispatchCount;
    if v < |s.rows| {
      if s.rows[v].scriptStatus == Some(ScriptRunning) {
        UnmarkKeepsSound(s, v, id);
        NoteKeepsSound(Unmarked(s, v), LifecycleStarted(v), id);
        EvolvesTransitive(s, Unmarked(s, v), OnScriptStarted(s, v), id);
      } else if s.rows[v].scriptStatus.None? {
        var t := MoveScript(s, v, ScriptRunning);
        MoveScriptKeepsSound(s, v, ScriptRunning, id);
        NoteKeepsSound(t, LifecycleStarted(v), id);
        EvolvesTransitive(s, t, OnScriptStarted(s, v), id);
      }
    }
  }

  lemma FinishedKeepsSound(s: Store, v: nat, killed: bool, exitZero: bool, id: nat)
    requires Sound(s, id)
    ensures Sound(OnScriptFinished(s, v, killed, exitZero), id) && Evolves(s, OnScriptFinished(s, v, killed, exitZero), id)
  {
    hide Replay, LegalAudit, SendTimes, DispatchCount;
    MoveScriptKeepsSound(s, v, if killed then ScriptKilled else if exitZero then ScriptCompleted else ScriptFailed, id);
  }

  /** What a step of a suspended cancel may do to the database: nothing, one note, or one cancel. */
  lemma CallStepStore(sys: System, step: Step)
    requires IsCallStep(step)
    ensures var s, t := sys.store, CallStep(sys, step).store;
      || t == s
      || (exists v: nat :: t == Noted(s, CancelAttemptFailed(v)))
      || (exists v: nat, actorId: nat, canAdmin: bool :: t == CancelRow(s, v, actorId, canAdmin).0)
  {
  }

  lemma CallStepKeepsSound(sys: System, step: Step, id: nat)
    requires Sound(sys.store, id) && IsCallStep(step)
    ensures var t := CallStep(sys, step).store; Sound(t, id) && Evolves(sys.store, t, id)
  {
    hide Replay, LegalAudit, SendTimes, DispatchCount;
    var s, t := sys.store, CallStep(sys, step).store;
    CallStepStore(sys, step);
    if v: nat :| t == Noted(s, CancelAttemptFailed(v)) {
      NoteKeepsSound(s, CancelAttemptFailed(v), id);
    } else if v: nat, actorId: nat, canAdmin: bool :| t == CancelRow(s, v, actorId, canAdmin).0 {
      CancelKeepsSound(s, v, actorId, canAdmin, id);
    }
  }

  lemma StoreStepKeepsSound(s: Store, step: Step, id: nat)
    requires Sound(s, id)
    ensures Sound(StoreStep(s, step), id) && Evolves(s, StoreStep(s, step), id)
  {
    hide Replay, LegalAudit, SendTimes, DispatchCount, Inserted, Modify, CancelRow, CancelRows, Tick, Noted,
         OnScriptStarted, OnScriptFinished, CreateAccepts;
    match step
    case CreateBatch(req, _) => InsertKeepsSound(s, req, id);
    case ModifyOne(v, req, world, policy) => ModifyKeepsSound(s, v, req, world, policy, id);
    case CancelOne(v, actorId, canAdmin) => CancelKeepsSound(s, v, actorId, canAdmin, id);
    case CancelMany(groupId, actorId, canAdmin) => CancelGroupKeepsSound(s, groupId, actorId, canAdmin, id);
    case TickAt(m, o) => if OrdersCover(o, |s.rows|) { TickKeepsSound(s, o, m, id); }
    case AttemptFailed(v) => NoteKeepsSound(s, DispatchAttemptFailed(v), id);
    case ScriptStarted(v) => StartedKeepsSound(s, v, id);
    case ScriptFinished(v, killed, exitZero) => FinishedKeepsSound(s, v, killed, exitZero, id);
    case _ =>
  }

  lemma NextKeepsSound(sys: System, step: Step, id: nat)
    requires Sound(sys.store, id)
    ensures Sound(Next(sys, step).store, id) && Evolves(sys.store, Next(sys, step).store, id)
  {
    hide Replay, LegalAudit, SendTimes, DispatchCount;
    if IsCallStep(step) {
      CallStepKeepsSound(sys, step, id);
    } else {
      StoreStepKeepsSound(sys.store, step, id);
    }
  }

  lemma EmptyIsSound(id: nat)
    ensures Sound(INIT.store, id)
  {
  }

  lemma {:induction false} RunKeepsSound(run: seq<Step>, id: nat)
    ensures Sound(After(INIT, run).store, id)
  {
    hide Replay, LegalAudit, SendTimes, DispatchCount, Next;
    if run == [] {
      EmptyIsSound(id);
    } else {
      var n := |run| - 1;
      RunKeepsSound(run[..n], id);
      NextKeepsSound(After(INIT, run[..n]), run[n], id);
    }
  }

  /** From any point of a run to any later one, a row only evolves. */
  lemma {:induction false} RunEvolves(run: seq<Step>, k: nat, id: nat)
    requires k <= |run|
    ensures Evolves(After(INIT, run[..k]).store, After(INIT, run).store, id)
  {
    hide Replay, LegalAudit, SendTimes, DispatchCount, Next;
    var n := |run|;
    if k == n {
      assert run[..k] == run;
    } else {
      RunEvolves(run[..n - 1], k, id);
      assert run[..n - 1][..k] == run[..k];
      RunKeepsSound(run[..n - 1], id);
      NextKeepsSound(After(INIT, run[..n - 1]), run[n - 1], id);
      EvolvesTransitive(After(INIT, run[..k]).store, After(INIT, run[..n - 1]).store, After(INIT, run).store, id);
    }
  }

  lemma PrefixStep(run: seq<Step>, k: nat)
    requires k < |run|
    ensures After(INIT, run[..k + 1]) == Next(After(INIT, run[..k]), run[k])
  {
    hide Next;
    assert run[..k + 1][..k] == run[..k];
  }

  // -------------------------------------------------------------------------- the theorems

  /** Folding the audit log from nothing gives every row's group, status and script status. */
  lemma AuditReplaysEveryRow(run: seq<Step>, id: nat)
    ensures var s := After(INIT, run).store; Replay(s.audit, id) == Current(s.rows, id)
  {
    hide Replay, LegalAudit, SendTimes, DispatchCount, After;
    RunKeepsSound(run, id);
  }

  /** Every audited move of a row follows an allowed edge from the state the log had reached. */
  lemma EveryMoveFollowsAnEdge(run: seq<Step>, id: nat, k: nat)
    requires k < |After(INIT, run).store.audit|
    ensures var audit := After(INIT, run).store.audit; LegalMove(Replay(audit[..k], id), audit[k], id)
  {
    hide Replay, LegalAudit, SendTimes, DispatchCount, After;
    RunKeepsSound(run, id);
    LegalPrefix(After(INIT, run).store.audit, k, id);
  }

  lemma {:induction false} LegalPrefix(audit: seq<Audit>, k: nat, id: nat)
    requires LegalAudit(audit, id) && k < |audit|
    ensures LegalMove(Replay(audit[..k], id), audit[k], id)
  {
    var n := |audit| - 1;
    if k < n {
      LegalPrefix(audit[..n], k, id);
      assert audit[..n][..k] == audit[..k];
    }
  }

  /** A terminal status, and a terminal script status, is never overwritten. */
  lemma TerminalIsForever(run: seq<Step>, k: nat, id: nat)
    requires k <= |run| && id < |After(INIT, run[..k]).store.rows|
    ensures var s, t := After(INIT, run[..k]).store, After(INIT, run).store;
      && id < |t.rows|
      && (Terminal(s.rows[id].status) ==> t.rows[id].status == s.rows[id].status)
      && (ScriptTerminal(s.rows[id].scriptStatus) ==> t.rows[id].scriptStatus == s.rows[id].scriptStatus)
  {
    hide Replay, LegalAudit, SendTimes, DispatchCount, After;
    RunEvolves(run, k, id);
  }

  /** Once a row has left `scheduled` its window, script and trigger time stay as they are. */
  lemma TimesFreezeOnceActive(run: seq<Step>, k: nat, id: nat)
    requires k <= |run| && id < |After(INIT, run[..k]).store.rows|
    requires After(INIT, run[..k]).store.rows[id].status != Scheduled
    ensures var a, t := After(INIT, run[..k]).store.rows[id], After(INIT, run).store;
      && id < |t.rows|
      && t.rows[id].startAt == a.startAt && t.rows[id].endAt == a.endAt
      && t.rows[id].scriptAt == a.scriptAt && t.rows[id].script == a.script
  {
    hide Replay, LegalAudit, SendTimes, DispatchCount, After;
    RunEvolves(run, k, id);
  }

  /** Marked dispatched at most once; requests more than a minute apart, all inside the script's part of the window. */
  lemma DispatchDiscipline(run: seq<Step>, id: nat)
    ensures var s := After(INIT, run).store;
      var ts := SendTimes(s.sent, id);
      && DispatchCount(s.audit, id) <= 1
      && Spaced(ts)
      && (ts != [] ==> id < |s.rows| && s.rows[id].scriptAt.Some? && AllWithin(ts, s.rows[id].scriptAt.value, s.rows[id].endAt))
  {
    hide Replay, LegalAudit, SendTimes, DispatchCount, After;
    RunKeepsSound(run, id);
  }

  lemma {:induction false} SpacedSpan(ts: seq<int>)
    requires ts != [] && Spaced(ts)
    ensures ts[|ts| - 1] - ts[0] >= (|ts| - 1) * WATCHDOG_STUCK
  {
    var n := |ts| - 1;
    if n > 0 {
      assert Spaced(ts[..n]);
      SpacedSpan(ts[..n]);
      assert ts[n] - ts[n - 1] > WATCHDOG_STUCK;
      assert n * WATCHDOG_STUCK == (n - 1) * WATCHDOG_STUCK + WATCHDOG_STUCK;
    }
  }

  /** So no reservation is ever asked to run more than 1 + window/60 s times. */
  lemma DispatchBound(run: seq<Step>, id: nat)
    ensures var s := After(INIT, run).store;
      var n := |SendTimes(s.sent, id)|;
      n > 0 ==> id < |s.rows| && s.rows[id].scriptAt.Some?
                && (n - 1) * WATCHDOG_STUCK < s.rows[id].endAt - s.rows[id].scriptAt.value
  {
    hide Replay, LegalAudit, SendTimes, DispatchCount, After;
    DispatchDiscipline(run, id);
    var ts := SendTimes(After(INIT, run).store.sent, id);
    if ts != [] {
      SpacedSpan(ts);
    }
  }

  lemma StartedQuiets(s: Store, id: nat)
    requires id < |s.rows| && (s.rows[id].scriptStatus.None? ==> s.rows[id].dispatchStartedAt.None?)
    ensures var t := OnScriptStarted(s, id);
      |t.rows| == |s.rows| && Quiet(t.rows[id]) && t.sent == s.sent
  {
  }

  /** Once a started event has been handled for a row, nothing later queues another request for it. */
  lemma NoRequestAfterStarted(run: seq<Step>, k: nat, id: nat)
    requires k < |run| && run[k] == ScriptStarted(id) && id < |After(INIT, run[..k]).store.rows|
    ensures SendTimes(After(INIT, run).store.sent, id) == SendTimes(After(INIT, run[..k]).store.sent, id)
  {
    assert run[..k + 1][..k] == run[..k];
    RunKeepsSound(run[..k], id);
    StartedQuiets(After(INIT, run[..k]).store, id);
    RunEvolves(run, k + 1, id);
  }

  // ------------------------------------------------------------------ one tick, a whole life

  /** A row whose window passed between two ticks is opened and closed by one tick, and its script is not asked for. */
  lemma MissedWindowNeverFires(s: Store, o: Orders, m: Moment, id: nat)
    requires Sound(s, id) && id < |s.rows|
    requires id in o.promote && id in o.close
    requires s.rows[id].status == Scheduled && DbChecks(s.rows[id]) && s.rows[id].endAt <= m.now
    requires s.rows[id].serverId in m.servers
    ensures var t := Tick(s, o, m);
      && id < |t.rows|
      && t.rows[id].status == CloseTarget(s.rows[id])
      && Terminal(t.rows[id].status)
      && SendTimes(t.sent, id) == SendTimes(s.sent, id)
  {
    hide Replay, LegalAudit, SendTimes, DispatchCount;
    var s1 := RunPhase(Promote, s, o.promote, m);
    PromotesDue(s, o.promote, m, id);
    var s2 := RunPhase(Close, s1, o.close, m);
    ClosesDue(s1, o.close, m, id);
    LeavesTerminal(Dispatch, s2, o.dispatch, m, id);
    LeavesTerminal(Watch, RunPhase(Dispatch, s2, o.dispatch, m), o.watch, m, id);
  }

  lemma {:induction false} PromotesDue(s: Store, order: seq<nat>, m: Moment, id: nat)
    requires Sound(s, id) && id < |s.rows|
    requires Due(Promote, s.rows[id], m) && s.rows[id].serverId in m.servers
    ensures var t := RunPhase(Promote, s, order, m);
      && |t.rows| == |s.rows|
      && t.rows[id] == (if id in order then s.rows[id].(status := Active) else s.rows[id])
      && t.sent == s.sent
  {
    if order != [] {
      var n := |order| - 1;
      PromotesDue(s, order[..n], m, id);
      assert id in order <==> id in order[..n] || id == order[n];
    }
  }

  lemma {:induction false} ClosesDue(s: Store, order: seq<nat>, m: Moment, id: nat)
    requires id < |s.rows|
    requires Due(Close, s.rows[id], m) && s.rows[id].serverId in m.servers
    ensures var t := RunPhase(Close, s, order, m);
      && |t.rows| == |s.rows|
      && t.rows[id] == (if id in order then s.rows[id].(status := CloseTarget(s.rows[id])) else s.rows[id])
      && t.sent == s.sent
  {
    if order != [] {
      var n := |order| - 1;
      ClosesDue(s, order[..n], m, id);
      assert id in order <==> id in order[..n] || id == order[n];
    }
  }

  lemma VisitLeavesTerminal(phase: Phase, s: Store, v: nat, m: Moment, id: nat)
    requires id < |s.rows| && Terminal(s.rows[id].status)
    ensures var t := Visit(phase, s, v, m);
      |t.rows| == |s.rows| && t.rows[id] == s.rows[id] && SendTimes(t.sent, id) == SendTimes(s.sent, id)
  {
    hide Replay, LegalAudit, SendTimes, DispatchCount;
    var t := Visit(phase, s, v, m);
    if t.sent != s.sent {
      SendPush(s.sent, t.sent[|s.sent|], id);
    }
  }

  lemma {:induction false} LeavesTerminal(phase: Phase, s: Store, order: seq<nat>, m: Moment, id: nat)
    requires id < |s.rows| && Terminal(s.rows[id].status)
    ensures var t := RunPhase(phase, s, order, m);
      |t.rows| == |s.rows| && t.rows[id] == s.rows[id] && SendTimes(t.sent, id) == SendTimes(s.sent, id)
  {
    hide Replay, LegalAudit, SendTimes, DispatchCount;
    if order != [] {
      var n := |order| - 1;
      LeavesTerminal(phase, s, order[..n], m, id);
      VisitLeavesTerminal(phase, RunPhase(phase, s, order[..n], m), order[n], m, id);
    }
  }
}
