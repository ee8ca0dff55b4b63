/** The tick as it runs: four selects, each followed by a loop over the rows it returned. */
module Ticks {
  import opened Prelude
  import opened Reservations
  import opened ReservationService
  import opened Scheduler
  import opened Sessions

  /** A query lists a row at most once. */
  ghost predicate Distinct(order: seq<nat>) {
    forall i, j :: 0 <= i < j < |order| ==> order[i] != order[j]
  }

  /** The rows a phase's query returns, in the order the database lists them. */
  function Selected(phase: Phase, rows: seq<Row>, order: seq<nat>, m: Moment): seq<nat> {
    if order == [] then []
    else
      var n := |order| - 1;
      Selected(phase, rows, order[..n], m)
      + (if order[n] < |rows| && Due(phase, rows[order[n]], m) then [order[n]] else [])
  }

  lemma {:induction false} SelectedAreDue(phase: Phase, rows: seq<Row>, order: seq<nat>, m: Moment)
    ensures forall id :: id in Selected(phase, rows, order, m) ==> id in order && id < |rows| && Due(phase, rows[id], m)
  {
    if order != [] {
      SelectedAreDue(phase, rows, order[..|order| - 1], m);
    }
  }

  lemma {:induction false} SelectedDistinct(phase: Phase, rows: seq<Row>, order: seq<nat>, m: Moment)
    requires Distinct(order)
    ensures Distinct(Selected(phase, rows, order, m))
  {
    if order != [] {
      var n := |order| - 1;
      SelectedDistinct(phase, rows, order[..n], m);
      SelectedAreDue(phase, rows, order[..n], m);
      var before := Selected(phase, rows, order[..n], m);
      forall i | 0 <= i < |before|
        ensures before[i] != order[n]
      {
        assert before[i] in order[..n];
      }
    }
  }

  lemma {:induction false} PhaseLeavesOthers(phase: Phase, s: Store, order: seq<nat>, m: Moment, id: nat)
    requires id !in order
    ensures var t := RunPhase(phase, s, order, m);
      |t.rows| == |s.rows| && (id < |s.rows| ==> t.rows[id] == s.rows[id])
  {
    if order != [] {
      PhaseLeavesOthers(phase, s, order[..|order| - 1], m, id);
    }
  }

  /** Selecting first and looking again at each visit come to the same. */
  lemma {:induction false} SelectedSuffices(phase: Phase, s: Store, order: seq<nat>, m: Moment)
    requires Distinct(order)
    ensures RunPhase(phase, s, Selected(phase, s.rows, order, m), m) == RunPhase(phase, s, order, m)
  {
    if order != [] {
      var n := |order| - 1;
      SelectedSuffices(phase, s, order[..n], m);
      PhaseLeavesOthers(phase, s, order[..n], m, order[n]);
      var due, before := Selected(phase, s.rows, order, m), Selected(phase, s.rows, order[..n], m);
      assert order[n] < |s.rows| && Due(phase, s.rows[order[n]], m) ==> due[..|due| - 1] == before;
      assert !(order[n] < |s.rows| && Due(phase, s.rows[order[n]], m)) ==> due == before;
    }
  }

  /** The next selected row is as the query saw it. */
  lemma NextStillDue(phase: Phase, s: Store, order: seq<nat>, m: Moment, i: nat)
    requires Distinct(order)
    requires i < |Selected(phase, s.rows, order, m)|
    ensures var due := Selected(phase, s.rows, order, m);
      var t := RunPhase(phase, s, due[..i], m);
      && due[i] < |t.rows| == |s.rows| && Due(phase, t.rows[due[i]], m) && t.rows[due[i]] == s.rows[due[i]]
      && RunPhase(phase, s, due[..i + 1], m) == Visit(phase, t, due[i], m)
  {
    var due := Selected(phase, s.rows, order, m);
    SelectedAreDue(phase, s.rows, order, m);
    SelectedDistinct(phase, s.rows, order, m);
    assert due[i] in due;
    PhaseLeavesOthers(phase, s, due[..i], m, due[i]);
    assert due[..i + 1][..i] == due[..i];
  }

  /** `_promote_due_scheduled` */
  method PromoteDueScheduled(session: Session, order: seq<nat>, m: Moment) returns (promoted: nat)
    requires Distinct(order)
    modifies session
    ensures session.Snapshot() == RunPhase(Promote, old(session.Snapshot()), order, m) && old(session.sent) <= session.sent
    ensures promoted == |session.audit| - |old(session.audit)|
  {
    ghost var s := session.Snapshot();
    var due := Selected(Promote, session.rows, order, m);
    promoted := 0;
    for i := 0 to |due|
      invariant session.Snapshot() == RunPhase(Promote, s, due[..i], m) && s.sent <= session.sent
      invariant promoted == |session.audit| - |s.audit|
    {
      NextStillDue(Promote, s, order, m, i);
      if session.rows[due[i]].serverId in m.servers {
        var ok := session.TransitionTo(due[i], Active);
        assert ok;
        promoted := promoted + 1;
      }
    }
    assert due[..|due|] == due;
    SelectedSuffices(Promote, s, order, m);
  }

  /** `_close_due_active` */
  method CloseDueActive(session: Session, order: seq<nat>, m: Moment) returns (completed: nat, failed: nat)
    requires Distinct(order)
    modifies session
    ensures session.Snapshot() == RunPhase(Close, old(session.Snapshot()), order, m) && old(session.sent) <= session.sent
    ensures completed + failed == |session.audit| - |old(session.audit)|
  {
    ghost var s := session.Snapshot();
    var due := Selected(Close, session.rows, order, m);
    completed, failed := 0, 0;
    for i := 0 to |due|
      invariant session.Snapshot() == RunPhase(Close, s, due[..i], m) && s.sent <= session.sent
      invariant completed + failed == |session.audit| - |s.audit|
    {
      NextStillDue(Close, s, order, m, i);
      var row := session.rows[due[i]];
      if row.serverId in m.servers {
        if row.scriptStatus == Some(ScriptFailed) || row.scriptStatus == Some(ScriptKilled) {
          var ok := session.TransitionTo(due[i], Failed);
          assert ok;
          failed := failed + 1;
        } else {
          var ok := session.TransitionTo(due[i], Completed);
          assert ok;
          completed := completed + 1;
        }
      }
    }
    assert due[..|due|] == due;
    SelectedSuffices(Close, s, order, m);
  }

  /** `_dispatch_due_scripts` */
  method DispatchDueScripts(session: Session, order: seq<nat>, m: Moment) returns (dispatched: nat)
    requires Distinct(order)
    modifies session
    ensures session.Snapshot() == RunPhase(Dispatch, old(session.Snapshot()), order, m) && old(session.sent) <= session.sent
    ensures dispatched == |session.sent| - |old(session.sent)|
  {
    ghost var s := session.Snapshot();
    var due := Selected(Dispatch, session.rows, order, m);
    dispatched := 0;
    for i := 0 to |due|
      invariant session.Snapshot() == RunPhase(Dispatch, s, due[..i], m) && s.sent <= session.sent
      invariant dispatched == |session.sent| - |s.sent|
    {
      NextStillDue(Dispatch, s, order, m, i);
      if session.rows[due[i]].serverId in m.servers {
        var ok := session.MarkScriptDispatched(due[i], m.now);
        assert ok;
        dispatched := dispatched + 1;
      }
    }
    assert due[..|due|] == due;
    SelectedSuffices(Dispatch, s, order, m);
  }

  datatype WatchdogAction = Nothing | ClearedMarker | AskedAgain | GaveUp

  /** One turn of the watchdog's loop: heal a missed start, give up, or ask again. */
  method RetryOne(session: Session, id: nat, m: Moment) returns (did: WatchdogAction)
    requires id < |session.rows| && Due(Watch, session.rows[id], m)
    modifies session
    ensures session.Snapshot() == Visit(Watch, old(session.Snapshot()), id, m) && old(session.sent) <= session.sent
    ensures |session.sent| == |old(session.sent)| + (if did == AskedAgain then 1 else 0)
    ensures |session.audit| == |old(session.audit)| + (if did == AskedAgain || did == GaveUp then 1 else 0)
  {
    if session.rows[id].serverId !in m.servers {
      return Nothing;
    }
    var attempts := FailureCount(session.audit, id);
    if StartedSeen(session.audit, id) {
      session.rows := session.rows[id := session.rows[id].(dispatchStartedAt := None)];
      return ClearedMarker;
    }
    if attempts >= WATCHDOG_MAX_DISPATCH_ATTEMPTS {
      var ok := session.TransitionTo(id, Failed);
      assert ok;
      return GaveUp;
    }
    if session.rows[id].linkId !in m.links {
      return Nothing;
    }
    session.sent := session.sent + [Execute(id, m.now)];
    session.rows := session.rows[id := session.rows[id].(dispatchStartedAt := Some(m.now))];
    session.audit := session.audit + [DispatchRetry(id, attempts + 1, m.now)];
    did := AskedAgain;
  }

  /** `_retry_stuck_dispatches` */
  method RetryStuckDispatches(session: Session, order: seq<nat>, m: Moment)
    returns (cleared: nat, retried: nat, failed: nat)
    requires Distinct(order)
    modifies session
    ensures session.Snapshot() == RunPhase(Watch, old(session.Snapshot()), order, m) && old(session.sent) <= session.sent
    ensures retried == |session.sent| - |old(session.sent)|
    ensures retried + failed == |session.audit| - |old(session.audit)|
  {
    ghost var s := session.Snapshot();
    var due := Selected(Watch, session.rows, order, m);
    cleared, retried, failed := 0, 0, 0;
    hide Visit, Selected;
    for i := 0 to |due|
      invariant session.Snapshot() == RunPhase(Watch, s, due[..i], m) && s.sent <= session.sent
      invariant retried == |session.sent| - |s.sent|
      invariant retried + failed == |session.audit| - |s.audit|
    {
      NextStillDue(Watch, s, order, m, i);
      var did := RetryOne(session, due[i], m);
      match did {
        case Nothing =>
        case ClearedMarker => cleared := cleared + 1;
        case AskedAgain => retried := retried + 1;
        case GaveUp => failed := failed + 1;
      }
    }
    assert due[..|due|] == due;
    SelectedSuffices(Watch, s, order, m);
  }

  /** `_tick_body` */
  method TickBody(session: Session, o: Orders, m: Moment) returns (pending: seq<Execute>)
    requires Distinct(o.promote) && Distinct(o.close) && Distinct(o.dispatch) && Distinct(o.watch)
    modifies session
    ensures session.Snapshot() == Tick(old(session.Snapshot()), o, m)
    ensures session.sent == old(session.sent) + pending
  {
    var before := session.sent;
    var promoted := PromoteDueScheduled(session, o.promote, m);
    var completed, failed := CloseDueActive(session, o.close, m);
    var dispatched := DispatchDueScripts(session, o.dispatch, m);
    var cleared, retried, gaveUp := RetryStuckDispatches(session, o.watch, m);
    pending := session.sent[|before|..];
  }
}
