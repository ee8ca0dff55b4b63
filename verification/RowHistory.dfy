/**
 What every store operation keeps for one row, seen through the audit log and the queue
 of execute requests. The row's id is fixed throughout, so nothing here quantifies over rows.
 */
module RowHistory {
  import opened Prelude
  import opened Reservations
  import opened ReservationService
  import opened Scheduler
  import opened Protocol

  // ------------------------------------------------------------------------ audit replay

  /** What the audit log alone says of a row. */
  datatype Replayed = Replayed(groupId: nat, status: Status, scriptStatus: Option<ScriptStatus>)

  function Fold(e: Option<Replayed>, a: Audit, id: nat): Option<Replayed> {
    match a
    case Created(i, g) => if i == id then Some(Replayed(g, Scheduled, None)) else e
    case Cancel(i) => if i == id && e.Some? then Some(e.value.(status := Cancelled)) else e
    case CancelGroup(g, _) =>
      if e.Some? && e.value.groupId == g && !Terminal(e.value.status) then Some(e.value.(status := Cancelled)) else e
    case Transition(i, _, to) => if i == id && e.Some? then Some(e.value.(status := to)) else e
    case ScriptDispatched(i, _) =>
      if i == id && e.Some? then Some(e.value.(scriptStatus := Some(ScriptRunning))) else e
    case ScriptLifecycle(i, _, to) => if i == id && e.Some? then Some(e.value.(scriptStatus := Some(to))) else e
    case _ => e
  }

  function Replay(audit: seq<Audit>, id: nat): Option<Replayed> {
    if audit == [] then None
    else Fold(Replay(audit[..|audit| - 1], id), audit[|audit| - 1], id)
  }

  function Current(rows: seq<Row>, id: nat): Option<Replayed> {
    if id < |rows| then Some(Replayed(rows[id].groupId, rows[id].status, rows[id].scriptStatus)) else None
  }

  /** One audit row moves the replayed row at most along one edge, and says truly where it came from. */
  predicate LegalMove(e: Option<Replayed>, a: Audit, id: nat) {
    var f := Fold(e, a, id);
    || f == e
    || (e.None? && f.Some? && f.value.status == Scheduled && f.value.scriptStatus.None?)
    || (e.Some? && f.Some? && f.value == e.value.(status := f.value.status)
        && StatusEdge(e.value.status, f.value.status) && (a.Transition? ==> a.from == e.value.status))
    || (e.Some? && f.Some? && f.value == e.value.(scriptStatus := f.value.scriptStatus)
        && f.value.scriptStatus.Some? && ScriptEdge(e.value.scriptStatus, f.value.scriptStatus.value)
        && (a.ScriptLifecycle? ==> a.old_ == e.value.scriptStatus))
  }

  predicate LegalAudit(audit: seq<Audit>, id: nat) {
    audit != [] ==>
      && LegalAudit(audit[..|audit| - 1], id)
      && LegalMove(Replay(audit[..|audit| - 1], id), audit[|audit| - 1], id)
  }

  // -------------------------------------------------------------------- execute requests

  /** The instants at which execute requests were queued for a row. */
  function SendTimes(sent: seq<Execute>, id: nat): seq<int> {
    if sent == [] then []
    else
      var last := sent[|sent| - 1];
      SendTimes(sent[..|sent| - 1], id) + (if last.id == id then [last.at] else [])
  }

  function DispatchCount(audit: seq<Audit>, id: nat): nat {
    if audit == [] then 0
    else
      var last := audit[|audit| - 1];
      DispatchCount(audit[..|audit| - 1], id) + (if last.ScriptDispatched? && last.id == id then 1 else 0)
  }

  predicate Spaced(ts: seq<int>) {
    forall i {:trigger ts[i]} :: 0 < i < |ts| ==> ts[i] - ts[i - 1] > WATCHDOG_STUCK
  }

  predicate AllWithin(ts: seq<int>, from: int, until: int) {
    forall i :: 0 <= i < |ts| ==> from <= ts[i] < until
  }

  predicate SendsOk(r: Row, ts: seq<int>) {
    && Spaced(ts)
    && (ts != [] ==> r.status != Scheduled && r.script.Some? && r.scriptAt.Some? && AllWithin(ts, r.scriptAt.value, r.endAt))
    && (r.dispatchStartedAt.Some? ==> ts != [] && ts[|ts| - 1] == r.dispatchStartedAt.value)
    && (r.scriptStatus.None? ==> ts == [] && r.dispatchStartedAt.None?)
  }

  // ------------------------------------------------------------------------ the invariant

  predicate Sound(s: Store, id: nat) {
    && Replay(s.audit, id) == Current(s.rows, id)
    && LegalAudit(s.audit, id)
    && (id >= |s.rows| ==> SendTimes(s.sent, id) == [] && DispatchCount(s.audit, id) == 0)
    && (id < |s.rows| ==>
          && SendsOk(s.rows[id], SendTimes(s.sent, id))
          && DispatchCount(s.audit, id) <= (if s.rows[id].scriptStatus.None? then 0 else 1))
  }

  /** No tick will queue another request for this row. */
  predicate Quiet(r: Row) {
    r.scriptStatus.Some? && (r.scriptStatus == Some(ScriptRunning) ==> r.dispatchStartedAt.None?)
  }

  predicate ScriptTerminal(o: Option<ScriptStatus>) {
    o.Some? && o.value != ScriptRunning
  }

  /** What never changes, or never changes back, from one state of a row to a later one. */
  predicate RowEvolves(a: Row, b: Row) {
    && b.groupId == a.groupId && b.gpuId == a.gpuId && b.memoryMb == a.memoryMb && b.sharePct == a.sharePct
    && (a.status != Scheduled ==>
          && b.status != Scheduled
          && b.startAt == a.startAt && b.endAt == a.endAt && b.scriptAt == a.scriptAt && b.script == a.script)
    && (Terminal(a.status) ==> b.status == a.status)
    && (a.scriptStatus.Some? ==> b.scriptStatus.Some?)
    && (ScriptTerminal(a.scriptStatus) ==> b.scriptStatus == a.scriptStatus)
    && (Quiet(a) ==> Quiet(b))
  }

  predicate Evolves(s: Store, t: Store, id: nat) {
    && |s.rows| <= |t.rows|
    && (id < |s.rows| ==>
          && RowEvolves(s.rows[id], t.rows[id])
          && (Quiet(s.rows[id]) ==> SendTimes(t.sent, id) == SendTimes(s.sent, id)))
  }

  /** After the closing phase a row is not both active and past its end, unless its server is gone. */
  predicate Settled(s: Store, id: nat, m: Moment) {
    id < |s.rows| && s.rows[id].status == Active && s.rows[id].serverId in m.servers ==> s.rows[id].endAt > m.now
  }

  // ------------------------------------------------------------------ small folding facts

  lemma ReplayPush(audit: seq<Audit>, a: Audit, id: nat)
    ensures Replay(audit + [a], id) == Fold(Replay(audit, id), a, id)
    ensures LegalAudit(audit + [a], id) <==> LegalAudit(audit, id) && LegalMove(Replay(audit, id), a, id)
    ensures DispatchCount(audit + [a], id)
         == DispatchCount(audit, id) + (if a.ScriptDispatched? && a.id == id then 1 else 0)
  {
    assert (audit + [a])[..|audit|] == audit;
  }

  lemma SendPush(sent: seq<Execute>, e: Execute, id: nat)
    ensures SendTimes(sent + [e], id) == if e.id == id then SendTimes(sent, id) + [e.at] else SendTimes(sent, id)
  {
    assert (sent + [e])[..|sent|] == sent;
  }

  lemma CreatedGrows(audit: seq<Audit>, first: nat, n: nat, groupId: nat)
    ensures audit + CreatedAudits(first, n + 1, groupId) == audit + CreatedAudits(first, n, groupId) + [Created(first + n, groupId)]
  {
  }

  lemma {:induction false} ReplayInserted(audit: seq<Audit>, first: nat, n: nat, groupId: nat, id: nat)
    requires first <= id ==> Replay(audit, id).None?
    requires LegalAudit(audit, id)
    ensures var after := audit + CreatedAudits(first, n, groupId);
      && LegalAudit(after, id)
      && DispatchCount(after, id) == DispatchCount(audit, id)
      && Replay(after, id) ==
           if first <= id < first + n then Some(Replayed(groupId, Scheduled, None)) else Replay(audit, id)
  {
    if n == 0 {
      assert audit + CreatedAudits(first, 0, groupId) == audit;
    } else {
      ReplayInserted(audit, first, n - 1, groupId, id);
      var before := audit + CreatedAudits(first, n - 1, groupId);
      CreatedGrows(audit, first, n - 1, groupId);
      hide Replay, LegalAudit, DispatchCount, CreatedAudits;
      ReplayPush(before, Created(first + n - 1, groupId), id);
    }
  }

  // ------------------------------------------------------------------- one visit of a tick

  lemma MoveToKeepsSound(s: Store, v: nat, target: Status, id: nat)
    requires Sound(s, id)
    ensures Sound(MoveTo(s, v, target), id) && Evolves(s, MoveTo(s, v, target), id)
  {
    hide Replay, LegalAudit, SendTimes, DispatchCount;
    if v < |s.rows| && StatusEdge(s.rows[v].status, target) {
      ReplayPush(s.audit, Transition(v, s.rows[v].status, target), id);
    }
  }

  lemma MoveScriptKeepsSound(s: Store, v: nat, target: ScriptStatus, id: nat)
    requires Sound(s, id)
    ensures Sound(MoveScript(s, v, target), id) && Evolves(s, MoveScript(s, v, target), id)
  {
    hide Replay, LegalAudit, SendTimes, DispatchCount;
    if v < |s.rows| && ScriptEdge(s.rows[v].scriptStatus, target) {
      ReplayPush(s.audit, ScriptLifecycle(v, s.rows[v].scriptStatus, target), id);
    }
  }

  /** An audit row that moves no status, with at most the dispatch marker cleared beside it. */
  lemma NoteKeepsSound(s: Store, a: Audit, id: nat)
    requires Sound(s, id)
    requires a.LifecycleStarted? || a.DispatchAttemptFailed? || a.DispatchRetry? || a.CancelAttemptFailed? || a.Modified?
    ensures Sound(Noted(s, a), id) && Evolves(s, Noted(s, a), id)
  {
    hide Replay, LegalAudit, SendTimes, DispatchCount;
    ReplayPush(s.audit, a, id);
  }

  lemma UnmarkKeepsSound(s: Store, v: nat, id: nat)
    requires Sound(s, id) && v < |s.rows|
    ensures Sound(Unmarked(s, v), id) && Evolves(s, Unmarked(s, v), id)
  {
    hide Replay, LegalAudit, SendTimes, DispatchCount;
  }

  lemma FirstSend(r: Row, ts: seq<int>, now: int)
    requires SendsOk(r, ts) && r.status == Active && r.scriptStatus.None? && r.script.Some?
    requires r.scriptAt.Some? && r.scriptAt.value <= now < r.endAt
    ensures SendsOk(r.(scriptStatus := Some(ScriptRunning), dispatchStartedAt := Some(now)), ts + [now])
  {
  }

  /** Queueing a request for a settled active row: the first time, or more than a minute after the last. */
  lemma DispatchKeepsSound(s: Store, v: nat, m: Moment, id: nat)
    requires Sound(s, id) && Settled(s, id, m) && Visited(Dispatch, s, v, m)
    ensures Sound(MarkDispatched(s, v, m.now), id) && Evolves(s, MarkDispatched(s, v, m.now), id)
  {
    hide Replay, LegalAudit, SendTimes, DispatchCount, SendsOk, Spaced, AllWithin;
    ReplayPush(s.audit, ScriptDispatched(v, m.now), id);
    SendPush(s.sent, Execute(v, m.now), id);
    if v == id {
      FirstSend(s.rows[id], SendTimes(s.sent, id), m.now);
    }
  }

  lemma ResendKeepsSound(s: Store, v: nat, m: Moment, id: nat)
    requires Sound(s, id) && Settled(s, id, m) && Visited(Watch, s, v, m)
    ensures Sound(Resent(s, v, m.now), id) && Evolves(s, Resent(s, v, m.now), id)
  {
    hide Replay, LegalAudit, SendTimes, DispatchCount;
    SendPush(s.sent, Execute(v, m.now), id);
    if v == id {
      var ts := SendTimes(s.sent, id);
      assert Spaced(ts + [m.now]);
      assert SendsOk(s.rows[id].(dispatchStartedAt := Some(m.now)), ts + [m.now]);
    }
  }

  lemma WatchKeepsSound(s: Store, v: nat, m: Moment, id: nat)
    requires Sound(s, id) && Settled(s, id, m) && Visited(Watch, s, v, m)
    ensures Sound(WatchRow(s, v, m), id) && Evolves(s, WatchRow(s, v, m), id)
  {
    hide Replay, LegalAudit, SendTimes, DispatchCount;
    var attempts := FailureCount(s.audit, v);
    if StartedSeen(s.audit, v) {
      UnmarkKeepsSound(s, v, id);
    } else if attempts >= WATCHDOG_MAX_DISPATCH_ATTEMPTS {
      MoveToKeepsSound(s, v, Failed, id);
    } else if s.rows[v].linkId in m.links {
      NoteKeepsSound(s, DispatchRetry(v, attempts + 1, m.now), id);
      ResendKeepsSound(Noted(s, DispatchRetry(v, attempts + 1, m.now)), v, m, id);
    }
  }

  /** Visiting any row, due or not, keeps row `id` sound; dispatching needs it settled. */
  lemma VisitKeepsSound(phase: Phase, s: Store, v: nat, m: Moment, id: nat)
    requires Sound(s, id)
    requires phase == Dispatch || phase == Watch ==> Settled(s, id, m)
    ensures Sound(Visit(phase, s, v, m), id) && Evolves(s, Visit(phase, s, v, m), id)
    ensures |Visit(phase, s, v, m).rows| == |s.rows|
  {
    hide Replay, LegalAudit, SendTimes, DispatchCount;
    if Visited(phase, s, v, m) {
      match phase
      case Promote => MoveToKeepsSound(s, v, Active, id);
      case Close => MoveToKeepsSound(s, v, CloseTarget(s.rows[v]), id);
      case Dispatch => DispatchKeepsSound(s, v, m, id);
      case Watch => WatchKeepsSound(s, v, m, id);
    }
  }

  lemma VisitKeepsSettled(phase: Phase, s: Store, v: nat, m: Moment, id: nat)
    requires phase != Promote && Settled(s, id, m)
    ensures Settled(Visit(phase, s, v, m), id, m)
  {
  }

  lemma CloseSettles(s: Store, m: Moment, id: nat)
    ensures Settled(Visit(Close, s, id, m), id, m)
  {
  }

  lemma EvolvesTransitive(a: Store, b: Store, c: Store, id: nat)
    requires Evolves(a, b, id) && Evolves(b, c, id)
    ensures Evolves(a, c, id)
  {
    hide Replay, LegalAudit, SendTimes, DispatchCount;
  }

  lemma {:induction false} PhaseKeepsSound(phase: Phase, s: Store, order: seq<nat>, m: Moment, id: nat)
    requires Sound(s, id)
    requires phase == Dispatch || phase == Watch ==> Settled(s, id, m)
    ensures var t := RunPhase(phase, s, order, m);
      && Sound(t, id) && Evolves(s, t, id) && |t.rows| == |s.rows|
      && (phase != Promote && Settled(s, id, m) ==> Settled(t, id, m))
      && (phase == Close && id in order ==> Settled(t, id, m))
  {
    hide Replay, LegalAudit, SendTimes, DispatchCount;
    if order != [] {
      var n := |order| - 1;
      PhaseKeepsSound(phase, s, order[..n], m, id);
      var before := RunPhase(phase, s, order[..n], m);
      VisitKeepsSound(phase, before, order[n], m, id);
      EvolvesTransitive(s, before, Visit(phase, before, order[n], m), id);
      if phase != Promote && Settled(before, id, m) {
        VisitKeepsSettled(phase, before, order[n], m, id);
      }
      if phase == Close {
        CloseSettles(before, m, id);
      }
    }
  }

  lemma TickKeepsSound(s: Store, o: Orders, m: Moment, id: nat)
    requires Sound(s, id) && Covers(o.close, |s.rows|)
    ensures Sound(Tick(s, o, m), id) && Evolves(s, Tick(s, o, m), id)
    ensures |Tick(s, o, m).rows| == |s.rows|
  {
    hide Replay, LegalAudit, SendTimes, DispatchCount;
    PhaseKeepsSound(Promote, s, o.promote, m, id);
    var s1 := RunPhase(Promote, s, o.promote, m);
    PhaseKeepsSound(Close, s1, o.close, m, id);
    var s2 := RunPhase(Close, s1, o.close, m);
    PhaseKeepsSound(Dispatch, s2, o.dispatch, m, id);
    var s3 := RunPhase(Dispatch, s2, o.dispatch, m);
    PhaseKeepsSound(Watch, s3, o.watch, m, id);
    EvolvesTransitive(s, s1, s2, id);
    EvolvesTransitive(s, s2, s3, id);
    EvolvesTransitive(s, s3, RunPhase(Watch, s3, o.watch, m), id);
  }
}
