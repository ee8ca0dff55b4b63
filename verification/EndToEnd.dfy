/** Backend and agent together: what a cancelled row says about what the agent did. */
module EndToEnd {
  import Protocol
  import CancelRuns
  import ScriptRunner

  /** One step of either side. Events travel freely: they may arrive late, again, out of order, or never. */
  datatype JointStep = OnBackend(backend: Protocol.Step) | OnAgent(agent: ScriptRunner.Step)

  function BackendRun(joint: seq<JointStep>): seq<Protocol.Step> {
    if joint == [] then []
    else
      var before, last := BackendRun(joint[..|joint| - 1]), joint[|joint| - 1];
      if last.OnBackend? then before + [last.backend] else before
  }

  function AgentLog(joint: seq<JointStep>): seq<ScriptRunner.Step> {
    if joint == [] then []
    else
      var before, last := AgentLog(joint[..|joint| - 1]), joint[|joint| - 1];
      if last.OnAgent? then before + [last.agent] else before
  }

  /** The agent has pushed a finished event that says the script of this reservation was killed. */
  ghost predicate PushedKill(log: seq<ScriptRunner.Step>, reservation: int) {
    exists k :: 0 <= k < |ScriptRunner.After(log).events| && SaysKilled(ScriptRunner.After(log).events[k], reservation)
  }

  predicate SaysKilled(e: ScriptRunner.Event, reservation: int) {
    e.Finished? && e.reservation == reservation && e.killed
  }

  /** The backend only handles a killed finish that the agent has pushed before. */
  ghost predicate Honest(joint: seq<JointStep>) {
    forall p :: 0 <= p < |joint| && joint[p].OnBackend? && joint[p].backend.ScriptFinished? && joint[p].backend.killed ==>
      PushedKill(AgentLog(joint[..p]), joint[p].backend.id)
  }

  lemma {:induction false} BackendPosition(joint: seq<JointStep>, j: nat) returns (p: nat)
    requires j < |BackendRun(joint)|
    ensures p < |joint| && joint[p] == OnBackend(BackendRun(joint)[j])
    decreases |joint|
  {
    var n := |joint| - 1;
    if j < |BackendRun(joint[..n])| {
      p := BackendPosition(joint[..n], j);
    } else {
      p := n;
    }
  }

  lemma {:induction false} AgentPosition(joint: seq<JointStep>, i: nat) returns (q: nat)
    requires i < |AgentLog(joint)|
    ensures q < |joint| && joint[q] == OnAgent(AgentLog(joint)[i]) && AgentLog(joint[..q]) == AgentLog(joint)[..i]
    decreases |joint|
  {
    var n := |joint| - 1;
    var before := AgentLog(joint[..n]);
    if i < |before| {
      q := AgentPosition(joint[..n], i);
      assert joint[..n][..q] == joint[..q];
      assert before[..i] == AgentLog(joint)[..i];
    } else {
      q := n;
      assert AgentLog(joint)[..i] == before;
    }
  }

  lemma AgentPrefix(log: seq<ScriptRunner.Step>, m: nat)
    requires m < |log|
    ensures ScriptRunner.After(log[..m + 1]) == ScriptRunner.Next(ScriptRunner.After(log[..m]), log[m])
  {
    hide ScriptRunner.Next;
    assert log[..m + 1][..m] == log[..m];
  }

  /** A script keeps its reservation. */
  lemma {:induction false} IdentityStays(log: seq<ScriptRunner.Step>, i: nat, m: nat, n: nat)
    requires i <= m <= |log| && n < |ScriptRunner.After(log[..i]).scripts|
    ensures n < |ScriptRunner.After(log[..m]).scripts|
    ensures ScriptRunner.After(log[..m]).scripts[n].reservation == ScriptRunner.After(log[..i]).scripts[n].reservation
    decreases m
  {
    hide ScriptRunner.After, ScriptRunner.Next;
    if i < m {
      IdentityStays(log, i, m - 1, n);
      AgentPrefix(log, m - 1);
      ScriptRunner.ScriptsKeepIdentity(ScriptRunner.After(log[..m - 1]), log[m - 1]);
    }
  }

  /** The step is a cancel of this reservation, or its script running over its own limit. */
  predicate Stops(r: ScriptRunner.Runner, step: ScriptRunner.Step, reservation: int) {
    || (step.Cancel? && step.reservation == reservation)
    || (step.OverrunsLimit? && step.n < |r.scripts| && r.scripts[step.n].reservation == reservation)
  }

  /** A pushed kill goes back to a cancel the agent handled for that reservation, or to its run-time limit. */
  lemma PushedKillHasOrder(log: seq<ScriptRunner.Step>, reservation: int) returns (i: nat)
    requires PushedKill(log, reservation)
    ensures i < |log| && Stops(ScriptRunner.After(log[..i]), log[i], reservation)
  {
    hide ScriptRunner.After, ScriptRunner.Next;
    var k :| 0 <= k < |ScriptRunner.After(log).events| && SaysKilled(ScriptRunner.After(log).events[k], reservation);
    var e := ScriptRunner.After(log).events[k];
    ScriptRunner.KilledFlagIsExact(log, k);
    ScriptRunner.FinishesTellVerdicts(log, k);
    i :| 0 <= i < |log| && ScriptRunner.Kills(ScriptRunner.After(log[..i]), log[i], e.n);
    IdentityStays(log, i, |log|, e.n);
    assert log[..|log|] == log;
    ScriptRunner.RunIsSound(log[..i]);
  }

  /**
   * In every run of backend and agent together, a row that a suspended cancel turns cancelled belongs to a
   * reservation for which the agent had handled a cancel, or whose script had run over its own limit.
   */
  lemma CancelledRowWasStopped(joint: seq<JointStep>, p: nat) returns (q: nat)
    requires p < |joint| && Honest(joint) && joint[p].OnBackend? && Protocol.IsCallStep(joint[p].backend)
    requires var sys := Protocol.After(Protocol.INIT, BackendRun(joint[..p]));
      Protocol.Next(sys, joint[p].backend).store.rows != sys.store.rows
    ensures q < p && joint[q].OnAgent?
    ensures var sys := Protocol.After(Protocol.INIT, BackendRun(joint[..p]));
      && joint[p].backend.CancelConfirmed? && joint[p].backend.call < |sys.calls|
      && Stops(ScriptRunner.After(AgentLog(joint[..q])), joint[q].agent, sys.calls[joint[p].backend.call].rowId)
  {
    hide Protocol.After, Protocol.Next, ScriptRunner.After, Stops, PushedKill;
    var step := joint[p].backend;
    var before := BackendRun(joint[..p]);
    var run := before + [step];
    assert run[..|before|] == before;
    var i, j := CancelRuns.CancelNeedsConfirmedKill(run, |before|);
    var id := Protocol.After(Protocol.INIT, before).calls[step.call].rowId;
    assert run[j] == before[j];
    var p2 := BackendPosition(joint[..p], j);
    assert joint[p2] == OnBackend(before[j]);
    var log := AgentLog(joint[..p2]);
    assert PushedKill(log, id);
    var m := PushedKillHasOrder(log, id);
    q := AgentPosition(joint[..p2], m);
    assert joint[..p2][..q] == joint[..q];
  }
}
