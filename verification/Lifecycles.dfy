/** The lifecycle handlers as they run: the pending-kill registry beside the session they write to. */
module Lifecycles {
  import opened Prelude
  import opened Reservations
  import opened ReservationService
  import opened Scheduler
  import opened Protocol
  import opened Sessions

  class Lifecycle {
    const session: Session
    var pendingKills: map<nat, nat>
    var calls: seq<Call>

    function State(): System
      reads this, session
    {
      System(session.Snapshot(), pendingKills, calls)
    }

    constructor (session: Session)
      ensures this.session == session && pendingKills == map[] && calls == []
    {
      this.session := session;
      pendingKills, calls := map[], [];
    }

    /** `on_script_started` */
    method OnStarted(id: nat)
      modifies session
      ensures State() == Next(old(State()), ScriptStarted(id))
    {
      if id < |session.rows| {
        var status := session.rows[id].scriptStatus;
        if status == Some(ScriptRunning) {
          session.rows := session.rows[id := session.rows[id].(dispatchStartedAt := None)];
          session.audit := session.audit + [LifecycleStarted(id)];
        } else if status.None? {
          var ok := session.UpdateScriptStatus(id, ScriptRunning);
          session.audit := session.audit + [LifecycleStarted(id)];
        }
      }
    }

    /** `on_script_finished`: the row first, then the signal. */
    method OnFinished(id: nat, killed: bool, exitZero: bool)
      modifies this, session
      ensures State() == Next(old(State()), ScriptFinished(id, killed, exitZero))
    {
      if id >= |session.rows| {
        return;
      }
      if session.rows[id].scriptStatus == Some(ScriptRunning) {
        var target := if killed then ScriptKilled else if exitZero then ScriptCompleted else ScriptFailed;
        var ok := session.UpdateScriptStatus(id, target);
      }
      if killed {
        SignalKill(id);
      }
    }

    /** `_signal_lifecycle_kill` */
    method SignalKill(id: nat)
      modifies this
      ensures State() == Signal(old(State()), id)
    {
      if id in pendingKills && pendingKills[id] < |calls| {
        var c := pendingKills[id];
        calls := calls[c := calls[c].(signalled := true)];
      }
    }

    /** The part of `cancel_active_with_running_script` before its first await. */
    method BeginCancel(id: nat, actorId: nat, canAdmin: bool)
      modifies this
      ensures State() == Next(old(State()), CancelBegin(id, actorId, canAdmin))
    {
      if id < |session.rows| && session.rows[id].status == Active && session.rows[id].scriptStatus == Some(ScriptRunning) {
        pendingKills := pendingKills[id := |calls|];
        calls := calls + [Call(id, actorId, canAdmin, AwaitingRpc, false)];
      }
    }

    /** The agent is offline or did not answer in time: audit, discard the entry, raise. */
    method RpcFailed(c: nat)
      modifies this, session
      ensures State() == Next(old(State()), CancelRpcFailed(c))
    {
      if c < |calls| && calls[c].state == AwaitingRpc {
        session.audit := session.audit + [CancelAttemptFailed(calls[c].rowId)];
        Discard(c, Unreachable);
      }
    }

    /** The RPC raised something the orchestration does not catch: only the `finally` runs. */
    method RpcFailedOtherwise(c: nat)
      modifies this
      ensures State() == Next(old(State()), CancelRpcRaised(c))
    {
      if c < |calls| && calls[c].state == AwaitingRpc {
        Discard(c, RpcRaised);
      }
    }

    /** The agent acknowledged: go on to await the kill confirmation. */
    method RpcAcked(c: nat)
      modifies this
      ensures State() == Next(old(State()), CancelRpcAcked(c))
    {
      if c < |calls| && calls[c].state == AwaitingRpc {
        calls := calls[c := calls[c].(state := AwaitingKill)];
      }
    }

    /** No confirmation within the timeout: audit, discard the entry, raise. */
    method KillTimedOut(c: nat)
      modifies this, session
      ensures State() == Next(old(State()), CancelTimedOut(c))
    {
      if c < |calls| && calls[c].state == AwaitingKill {
        session.audit := session.audit + [CancelAttemptFailed(calls[c].rowId)];
        Discard(c, TimedOut);
      }
    }

    /** The event was set: cancel the row under its lock, then discard the entry. */
    method KillConfirmed(c: nat)
      modifies this, session
      ensures State() == Next(old(State()), CancelConfirmed(c))
    {
      if c < |calls| && calls[c].state == AwaitingKill && calls[c].signalled {
        var err := session.CancelReservation(calls[c].rowId, calls[c].actorId, calls[c].canAdmin);
        Discard(c, if err.None? then Confirmed else CancelRefused);
      }
    }

    /** The `finally`: pop whatever entry the row has, this call's or another's. */
    method Discard(c: nat, outcome: Outcome)
      requires c < |calls|
      modifies this
      ensures State() == Finish(old(State()), c, outcome, false)
    {
      pendingKills := pendingKills - {calls[c].rowId};
      calls := calls[c := calls[c].(state := Done(outcome))];
    }
  }
}
