/**
 The periodic tick: promote, close, dispatch, then watchdog. Each phase selects the due
 rows and visits them in an order the database chooses; visiting one row never makes
 another due, so the phase is a fold of visits over that order.
 */
module Scheduler {
  import opened Prelude
  import opened Reservations
  import opened ReservationService

  const WATCHDOG_STUCK: int := 60_000_000
  const WATCHDOG_MAX_DISPATCH_ATTEMPTS := 3

  /** One tick's instant, the servers that exist, and the links that lead to a Linux account. */
  datatype Moment = Moment(now: int, servers: set<nat>, links: set<nat>)

  datatype Phase = Promote | Close | Dispatch | Watch

  predicate Due(phase: Phase, r: Row, m: Moment) {
    match phase
    case Promote => r.status == Scheduled && r.startAt <= m.now
    case Close => r.status == Active && r.endAt <= m.now
    case Dispatch =>
      && r.status == Active && r.script.Some? && r.scriptStatus.None?
      && r.scriptAt.Some? && r.scriptAt.value <= m.now
      && r.linkId in m.links
    case Watch =>
      && r.status == Active && r.scriptStatus == Some(ScriptRunning)
      && r.dispatchStartedAt.Some? && r.dispatchStartedAt.value < m.now - WATCHDOG_STUCK
  }

  /** Has `agent.script.started` been audited for this row? */
  predicate StartedSeen(audit: seq<Audit>, id: nat) {
    LifecycleStarted(id) in audit
  }

  function FailureCount(audit: seq<Audit>, id: nat): nat {
    if audit == [] then 0
    else FailureCount(audit[..|audit| - 1], id) + (if audit[|audit| - 1] == DispatchAttemptFailed(id) then 1 else 0)
  }

  function Unmarked(s: Store, id: nat): Store
    requires id < |s.rows|
  {
    s.(rows := s.rows[id := s.rows[id].(dispatchStartedAt := None)])
  }

  function Noted(s: Store, a: Audit): Store {
    s.(audit := s.audit + [a])
  }

  /** The execute request queued again, and the marker's timer restarted. */
  function Resent(s: Store, id: nat, now: int): Store
    requires id < |s.rows|
  {
    s.(rows := s.rows[id := s.rows[id].(dispatchStartedAt := Some(now))], sent := s.sent + [Execute(id, now)])
  }

  /** One stuck row: clear an orphaned marker, give up after three failures, or queue the request again. */
  function WatchRow(s: Store, id: nat, m: Moment): Store
    requires id < |s.rows|
  {
    var attempts := FailureCount(s.audit, id);
    if StartedSeen(s.audit, id) then Unmarked(s, id)
    else if attempts >= WATCHDOG_MAX_DISPATCH_ATTEMPTS then MoveTo(s, id, Failed)
    else if s.rows[id].linkId !in m.links then s
    else Resent(Noted(s, DispatchRetry(id, attempts + 1, m.now)), id, m.now)
  }

  function CloseTarget(r: Row): Status {
    if r.scriptStatus == Some(ScriptFailed) || r.scriptStatus == Some(ScriptKilled) then Failed else Completed
  }

  /** A due row whose server is gone is skipped. */
  predicate Visited(phase: Phase, s: Store, id: nat, m: Moment) {
    id < |s.rows| && Due(phase, s.rows[id], m) && s.rows[id].serverId in m.servers
  }

  function Visit(phase: Phase, s: Store, id: nat, m: Moment): Store {
    if !Visited(phase, s, id, m) then s
    else
      match phase
      case Promote => MoveTo(s, id, Active)
      case Close => MoveTo(s, id, CloseTarget(s.rows[id]))
      case Dispatch => MarkDispatched(s, id, m.now)
      case Watch => WatchRow(s, id, m)
  }

  function RunPhase(phase: Phase, s: Store, order: seq<nat>, m: Moment): Store {
    if order == [] then s
    else Visit(phase, RunPhase(phase, s, order[..|order| - 1], m), order[|order| - 1], m)
  }

  /** The orders in which the four queries list the table. */
  datatype Orders = Orders(promote: seq<nat>, close: seq<nat>, dispatch: seq<nat>, watch: seq<nat>)

  ghost predicate Covers(order: seq<nat>, n: nat) {
    forall id: nat :: id < n ==> id in order
  }

  /** `_tick_body` */
  function Tick(s: Store, o: Orders, m: Moment): Store {
    var s1 := RunPhase(Promote, s, o.promote, m);
    var s2 := RunPhase(Close, s1, o.close, m);
    var s3 := RunPhase(Dispatch, s2, o.dispatch, m);
    RunPhase(Watch, s3, o.watch, m)
  }
}
