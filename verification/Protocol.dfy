/**
 The whole system as a transition system: service calls, ticks, agent events that may be
 lost, repeated, late or out of order, and cancels suspended at their two awaits.
 */
module Protocol {
  import opened Prelude
  import opened Reservations
  import opened ReservationService
  import opened Scheduler

  // ------------------------------------------------------------------ agent script events

  /** `on_script_started`: close the dispatch loop, or start a row nobody dispatched; drop stale events. */
  function OnScriptStarted(s: Store, id: nat): Store {
    if id >= |s.rows| then s
    else if s.rows[id].scriptStatus == Some(ScriptRunning) then
      Noted(Unmarked(s, id), LifecycleStarted(id))
    else if s.rows[id].scriptStatus.None? then
      Noted(MoveScript(s, id, ScriptRunning), LifecycleStarted(id))
    else s
  }

  /** `on_script_finished`, up to the signal. */
  function OnScriptFinished(s: Store, id: nat, killed: bool, exitZero: bool): Store {
    if id >= |s.rows| || s.rows[id].scriptStatus != Some(ScriptRunning) then s
    else MoveScript(s, id, if killed then ScriptKilled else if exitZero then ScriptCompleted else ScriptFailed)
  }

  // ------------------------------------------------------------------ cancel orchestration

  datatype Outcome = Confirmed | CancelRefused | Unreachable | RpcRaised | TimedOut

  datatype CallState = AwaitingRpc | AwaitingKill | Done(outcome: Outcome)

  /** One running `cancel_active_with_running_script`; `signalled` is its own event object. */
  datatype Call = Call(rowId: nat, actorId: nat, canAdmin: bool, state: CallState, signalled: bool)

  /** `registry` is `_PENDING_KILLS`: the call whose event a kill confirmation sets. */
  datatype System = System(store: Store, registry: map<nat, nat>, calls: seq<Call>)

  datatype Step =
    | CreateBatch(create: CreateRequest, world: World)
    | ModifyOne(id: nat, edit: ModifyRequest, world: World, policy: OnRefusal)
    | CancelOne(id: nat, actorId: nat, canAdmin: bool)
    | CancelMany(groupId: nat, actorId: nat, canAdmin: bool)
    | TickAt(moment: Moment, orders: Orders)
    | AttemptFailed(id: nat)
    | ScriptStarted(id: nat)
    | ScriptFinished(id: nat, killed: bool, exitZero: bool)
    | CancelBegin(id: nat, actorId: nat, canAdmin: bool)
    | CancelRpcFailed(call: nat)
    | CancelRpcRaised(call: nat)
    | CancelRpcAcked(call: nat)
    | CancelTimedOut(call: nat)
    | CancelConfirmed(call: nat)

  ghost function Create(s: Store, req: CreateRequest, world: World): Store {
    if CreateAccepts(req, s.rows, world) then Inserted(s, req) else s
  }

  function Finish(sys: System, c: nat, outcome: Outcome, audited: bool): System
    requires c < |sys.calls|
  {
    var rowId := sys.calls[c].rowId;
    System(
      if audited then Noted(sys.store, CancelAttemptFailed(rowId)) else sys.store,
      sys.registry - {rowId},
      sys.calls[c := sys.calls[c].(state := Done(outcome))])
  }

  function Signal(sys: System, rowId: nat): System {
    if rowId in sys.registry && sys.registry[rowId] < |sys.calls| then
      var c := sys.registry[rowId];
      sys.(calls := sys.calls[c := sys.calls[c].(signalled := true)])
    else sys
  }

  predicate InState(sys: System, c: nat, state: CallState) {
    c < |sys.calls| && sys.calls[c].state == state
  }

  /** What the steps that are one atomic call do to the database. */
  ghost function StoreStep(s: Store, step: Step): Store {
    match step
    case CreateBatch(req, world) => Create(s, req, world)
    case ModifyOne(id, req, world, policy) => Modify(s, id, req, world, policy).0
    case CancelOne(id, actorId, canAdmin) => CancelRow(s, id, actorId, canAdmin).0
    case CancelMany(groupId, actorId, canAdmin) => CancelRows(s, groupId, actorId, canAdmin).0
    case TickAt(m, o) => if OrdersCover(o, |s.rows|) then Tick(s, o, m) else s
    case AttemptFailed(id) => Noted(s, DispatchAttemptFailed(id))
    case ScriptStarted(id) => OnScriptStarted(s, id)
    case ScriptFinished(id, killed, exitZero) => OnScriptFinished(s, id, killed, exitZero)
    case _ => s
  }

  ghost predicate OrdersCover(o: Orders, n: nat) {
    Covers(o.promote, n) && Covers(o.close, n) && Covers(o.dispatch, n) && Covers(o.watch, n)
  }

  predicate IsCallStep(step: Step) {
    || step.CancelBegin? || step.CancelRpcFailed? || step.CancelRpcRaised?
    || step.CancelRpcAcked? || step.CancelTimedOut? || step.CancelConfirmed?
  }

  /** What the steps of a suspended cancel do: register, await the RPC, await the event, act. */
  function CallStep(sys: System, step: Step): System
    requires IsCallStep(step)
  {
    var s := sys.store;
    match step
    case CancelBegin(id, actorId, canAdmin) =>
      if id < |s.rows| && s.rows[id].status == Active && s.rows[id].scriptStatus == Some(ScriptRunning) then
        System(s, sys.registry[id := |sys.calls|], sys.calls + [Call(id, actorId, canAdmin, AwaitingRpc, false)])
      else sys
    case CancelRpcFailed(c) => if InState(sys, c, AwaitingRpc) then Finish(sys, c, Unreachable, true) else sys
    case CancelRpcRaised(c) => if InState(sys, c, AwaitingRpc) then Finish(sys, c, RpcRaised, false) else sys
    case CancelRpcAcked(c) =>
      if InState(sys, c, AwaitingRpc) then sys.(calls := sys.calls[c := sys.calls[c].(state := AwaitingKill)]) else sys
    case CancelTimedOut(c) => if InState(sys, c, AwaitingKill) then Finish(sys, c, TimedOut, true) else sys
    case CancelConfirmed(c) =>
      if InState(sys, c, AwaitingKill) && sys.calls[c].signalled then
        var (s', e) := CancelRow(s, sys.calls[c].rowId, sys.calls[c].actorId, sys.calls[c].canAdmin);
        Finish(sys.(store := s'), c, if e.None? then Confirmed else CancelRefused, false)
      else sys
  }

  /** A step that is not enabled changes nothing. A kill confirmation for a known row also wakes its cancel. */
  ghost function Next(sys: System, step: Step): System {
    if IsCallStep(step) then CallStep(sys, step)
    else
      var t := sys.(store := StoreStep(sys.store, step));
      if step.ScriptFinished? && step.killed && step.id < |sys.store.rows| then Signal(t, step.id) else t
  }

  const INIT := System(Store([], [], []), map[], [])

  /** The state after a run of steps. */
  ghost function After(sys: System, run: seq<Step>): System {
    if run == [] then sys else Next(After(sys, run[..|run| - 1]), run[|run| - 1])
  }
}
