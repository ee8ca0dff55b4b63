/** Backend and agent together: when a reservation's script runs a second time. */
module DoubleRuns {
  import opened Prelude
  import opened Reservations
  import opened Conflicts
  import opened ReservationService
  import opened Scheduler
  import RowHistory
  import Protocol
  import RequestRuns
  import Runs
  import ScriptRunner
  import opened EndToEnd

  // ------------------------------------------------------- scripts come from execute requests

  /** How many execute requests for this reservation the agent has handled. */
  function Handled(log: seq<ScriptRunner.Step>, reservation: int): nat {
    if log == [] then 0
    else Handled(log[..|log| - 1], reservation) + (if log[|log| - 1] == ScriptRunner.Execute(reservation) then 1 else 0)
  }

  function ScriptsOf(scripts: seq<ScriptRunner.Script>, reservation: int): nat {
    if scripts == [] then 0
    else ScriptsOf(scripts[..|scripts| - 1], reservation) + (if scripts[|scripts| - 1].reservation == reservation then 1 else 0)
  }

  lemma {:induction false} SameReservations(a: seq<ScriptRunner.Script>, b: seq<ScriptRunner.Script>, reservation: int)
    requires |a| == |b| && forall n :: 0 <= n < |a| ==> a[n].reservation == b[n].reservation
    ensures ScriptsOf(a, reservation) == ScriptsOf(b, reservation)
  {
    if a != [] {
      SameReservations(a[..|a| - 1], b[..|b| - 1], reservation);
    }
  }

  /** One more script adds one to its own reservation's count. */
  lemma ScriptsAppend(a: seq<ScriptRunner.Script>, b: seq<ScriptRunner.Script>, reservation: int)
    requires |b| == |a| + 1 && forall n :: 0 <= n < |a| ==> a[n].reservation == b[n].reservation
    ensures ScriptsOf(b, reservation) == ScriptsOf(a, reservation) + if b[|a|].reservation == reservation then 1 else 0
  {
    SameReservations(a, b[..|a|], reservation);
  }

  lemma {:induction false} ScriptsOfPrefix(scripts: seq<ScriptRunner.Script>, n: nat, reservation: int)
    requires n <= |scripts|
    ensures ScriptsOf(scripts[..n], reservation) <= ScriptsOf(scripts, reservation)
    decreases |scripts|
  {
    if n < |scripts| {
      ScriptsOfPrefix(scripts[..|scripts| - 1], n, reservation);
      assert scripts[..|scripts| - 1][..n] == scripts[..n];
    } else {
      assert scripts[..n] == scripts;
    }
  }

  lemma OneScript(scripts: seq<ScriptRunner.Script>, m: nat, reservation: int)
    requires m < |scripts| && scripts[m].reservation == reservation
    ensures ScriptsOf(scripts, reservation) >= 1
  {
    ScriptsOfPrefix(scripts, m + 1, reservation);
    assert scripts[..m + 1][m] == scripts[m];
  }

  lemma TwoScripts(scripts: seq<ScriptRunner.Script>, m: nat, n: nat, reservation: int)
    requires m < n < |scripts| && scripts[m].reservation == reservation && scripts[n].reservation == reservation
    ensures ScriptsOf(scripts, reservation) >= 2
  {
    OneScript(scripts[..n], m, reservation);
    ScriptsOfPrefix(scripts, n + 1, reservation);
    assert scripts[..n + 1][..n] == scripts[..n] && scripts[..n + 1][n] == scripts[n];
  }

  predicate Handling(r: ScriptRunner.Runner, reservation: int) {
    r.handling == Some(reservation)
  }

  /** Requests that became a script, or are becoming one. */
  function Taken(r: ScriptRunner.Runner, reservation: int): nat {
    ScriptsOf(r.scripts, reservation) + if Handling(r, reservation) then 1 else 0
  }

  lemma NextTakes(r: ScriptRunner.Runner, step: ScriptRunner.Step, reservation: int)
    ensures Taken(ScriptRunner.Next(r, step), reservation)
         <= Taken(r, reservation) + if step == ScriptRunner.Execute(reservation) then 1 else 0
  {
    hide ScriptsOf;
    var s := ScriptRunner.Next(r, step);
    ScriptRunner.ScriptsKeepIdentity(r, step);
    if |s.scripts| == |r.scripts| {
      SameReservations(r.scripts, s.scripts, reservation);
    } else {
      ScriptsAppend(r.scripts, s.scripts, reservation);
    }
  }

  /** The agent has no more scripts of a reservation than it has handled requests for it. */
  lemma {:induction false} ScriptsNeedRequests(log: seq<ScriptRunner.Step>, reservation: int)
    ensures Taken(ScriptRunner.After(log), reservation) <= Handled(log, reservation)
  {
    hide ScriptRunner.Next;
    if log != [] {
      ScriptsNeedRequests(log[..|log| - 1], reservation);
      NextTakes(ScriptRunner.After(log[..|log| - 1]), log[|log| - 1], reservation);
    }
  }

  // ------------------------------------------------------------ which request became a script

  /** The step is a request for this reservation that the agent takes up: it handles no other, and no script is in its map. */
  predicate TakesUp(r: ScriptRunner.Runner, step: ScriptRunner.Step, reservation: int) {
    step == ScriptRunner.Execute(reservation) && r.handling.None? && reservation !in r.running
  }

  lemma NothingAtFirst(log: seq<ScriptRunner.Step>)
    ensures ScriptRunner.After(log[..0]) == ScriptRunner.IDLE
  {
  }

  lemma HandlingStep(r: ScriptRunner.Runner, step: ScriptRunner.Step, reservation: int)
    requires Handling(ScriptRunner.Next(r, step), reservation)
    ensures |ScriptRunner.Next(r, step).scripts| == |r.scripts|
    ensures Handling(r, reservation) || TakesUp(r, step, reservation)
  {
  }

  lemma {:induction false} RequestBegan(log: seq<ScriptRunner.Step>, k: nat, reservation: int) returns (i: nat)
    requires k <= |log| && Handling(ScriptRunner.After(log[..k]), reservation)
    ensures i < k && TakesUp(ScriptRunner.After(log[..i]), log[i], reservation)
    ensures |ScriptRunner.After(log[..i]).scripts| == |ScriptRunner.After(log[..k]).scripts|
    decreases k
  {
    NothingAtFirst(log);
    hide ScriptRunner.After, ScriptRunner.Next, TakesUp;
    AgentPrefix(log, k - 1);
    var r := ScriptRunner.After(log[..k - 1]);
    HandlingStep(r, log[k - 1], reservation);
    if Handling(r, reservation) {
      i := RequestBegan(log, k - 1, reservation);
    } else {
      i := k - 1;
    }
  }

  /** Script n was registered for a request taken up when just the n scripts before it existed. */
  lemma {:induction false} ScriptBegan(log: seq<ScriptRunner.Step>, k: nat, n: nat) returns (i: nat)
    requires k <= |log| && n < |ScriptRunner.After(log[..k]).scripts|
    ensures i < k && |ScriptRunner.After(log[..i]).scripts| == n
    ensures TakesUp(ScriptRunner.After(log[..i]), log[i], ScriptRunner.After(log[..k]).scripts[n].reservation)
    decreases k
  {
    NothingAtFirst(log);
    hide ScriptRunner.After, ScriptRunner.Next, TakesUp;
    AgentPrefix(log, k - 1);
    var r := ScriptRunner.After(log[..k - 1]);
    ScriptRunner.ScriptsKeepIdentity(r, log[k - 1]);
    if n < |r.scripts| {
      i := ScriptBegan(log, k - 1, n);
    } else {
      assert Handling(r, ScriptRunner.After(log[..k]).scripts[n].reservation);
      i := RequestBegan(log, k - 1, ScriptRunner.After(log[..k]).scripts[n].reservation);
    }
  }

  /** When the request behind script n is taken up, every earlier script of the reservation has been cleaned up. */
  lemma TakenUpAfterCleanUp(log: seq<ScriptRunner.Step>, m: nat, n: nat) returns (i: nat)
    requires m < n < |ScriptRunner.After(log).scripts|
    requires ScriptRunner.After(log).scripts[m].reservation == ScriptRunner.After(log).scripts[n].reservation
    ensures i < |log| && TakesUp(ScriptRunner.After(log[..i]), log[i], ScriptRunner.After(log).scripts[n].reservation)
    ensures var r := ScriptRunner.After(log[..i]);
      |r.scripts| == n && r.scripts[m].reservation == ScriptRunner.After(log).scripts[m].reservation && r.scripts[m].done
  {
    assert log[..|log|] == log;
    hide ScriptRunner.After, ScriptRunner.Next;
    i := ScriptBegan(log, |log|, n);
    IdentityStays(log, i, |log|, m);
    ScriptRunner.RunIsSound(log[..i]);
  }

  // ---------------------------------------------------------------------------- both together

  ghost function Backend(joint: seq<JointStep>): Protocol.System {
    Protocol.After(Protocol.INIT, BackendRun(joint))
  }

  function Agent(joint: seq<JointStep>): ScriptRunner.Runner {
    ScriptRunner.After(AgentLog(joint))
  }

  /** At no time has the agent handled more requests for a row than the backend has queued. */
  ghost predicate Requested(joint: seq<JointStep>) {
    forall p: nat, id: nat :: p <= |joint| ==>
      Handled(AgentLog(joint[..p]), id) <= |RowHistory.SendTimes(Backend(joint[..p]).store.sent, id)|
  }

  lemma {:induction false} BackendPrefix(joint: seq<JointStep>, p: nat)
    requires p < |joint| && joint[p].OnBackend?
    ensures var run, k := BackendRun(joint), |BackendRun(joint[..p])|;
      k < |run| && run[..k] == BackendRun(joint[..p]) && run[k] == joint[p].backend
    decreases |joint|
  {
    var n := |joint| - 1;
    if p < n {
      BackendPrefix(joint[..n], p);
      assert joint[..n][..p] == joint[..p];
    }
  }

  ghost function Retries(joint: seq<JointStep>, id: nat): nat {
    RequestRuns.RetryCount(Backend(joint).store.audit, id)
  }

  /** At most one script of a row, and one more for each retry of the watchdog. */
  lemma ScriptsAreRetried(joint: seq<JointStep>, id: nat)
    requires Requested(joint)
    ensures Taken(Agent(joint), id) <= 1 + Retries(joint, id)
  {
    hide ScriptRunner.After, Protocol.After, RowHistory.SendTimes, Taken;
    ScriptsNeedRequests(AgentLog(joint), id);
    RequestRuns.RequestsAreAudited(BackendRun(joint), id);
    assert joint[..|joint|] == joint;
  }

  /** The same, with only the retries queued before the backend handled an event about the script. */
  lemma ScriptsAreRetriedEarly(joint: seq<JointStep>, p: nat, id: nat)
    requires Requested(joint)
    requires p < |joint| && joint[p].OnBackend?
    requires RequestRuns.Reports(Backend(joint[..p]).store.rows, joint[p].backend, id)
    ensures Taken(Agent(joint), id) <= 1 + Retries(joint[..p], id)
  {
    hide ScriptRunner.After, Protocol.After, RowHistory.SendTimes, Taken;
    ScriptsNeedRequests(AgentLog(joint), id);
    var run, k := BackendRun(joint), |BackendRun(joint[..p])|;
    BackendPrefix(joint, p);
    RequestRuns.NoRequestAfterReport(run, k, id);
    RequestRuns.RequestsAreAudited(run[..k], id);
    assert joint[..|joint|] == joint;
  }

  /**
   * A script that runs a second time was asked for by a retry of the watchdog. The request behind the second run is
   * taken up at step q, after the retry was committed and after the first run was cleaned up; and the retry was
   * committed before the backend handled any event about the row's script.
   */
  lemma SecondRunWasRetried(joint: seq<JointStep>, id: nat, m: nat, n: nat) returns (q: nat)
    requires Requested(joint) && m < n < |Agent(joint).scripts|
    requires Agent(joint).scripts[m].reservation == id && Agent(joint).scripts[n].reservation == id
    ensures q < |joint| && joint[q].OnAgent? && TakesUp(Agent(joint[..q]), joint[q].agent, id)
    ensures |Agent(joint[..q]).scripts| == n && Agent(joint[..q]).scripts[m].done
    ensures Retries(joint[..q], id) >= 1
    ensures forall p :: 0 <= p < |joint| && joint[p].OnBackend?
                        && RequestRuns.Reports(Backend(joint[..p]).store.rows, joint[p].backend, id) ==>
              Retries(joint[..p], id) >= 1
  {
    hide ScriptRunner.After, Protocol.After, RowHistory.SendTimes, ScriptRunner.Next;
    var i := TakenUpAfterCleanUp(AgentLog(joint), m, n);
    q := AgentPosition(joint, i);
    RetriedBefore(joint, q, id, m);
    TwoScripts(Agent(joint).scripts, m, n, id);
    forall p | 0 <= p < |joint| && joint[p].OnBackend? && RequestRuns.Reports(Backend(joint[..p]).store.rows, joint[p].backend, id)
      ensures Retries(joint[..p], id) >= 1
    {
      ScriptsAreRetriedEarly(joint, p, id);
    }
  }

  lemma RetriedBefore(joint: seq<JointStep>, q: nat, id: nat, m: nat)
    requires Requested(joint) && q < |joint| && joint[q] == OnAgent(ScriptRunner.Execute(id))
    requires m < |Agent(joint[..q]).scripts| && Agent(joint[..q]).scripts[m].reservation == id
    ensures Retries(joint[..q], id) >= 1
  {
    hide ScriptRunner.After, Protocol.After, RowHistory.SendTimes, ScriptRunner.Next;
    var before, now := joint[..q], joint[..q + 1];
    assert now[..q] == before;
    OneScript(Agent(before).scripts, m, id);
    ScriptsNeedRequests(AgentLog(before), id);
    assert AgentLog(now) == AgentLog(before) + [ScriptRunner.Execute(id)];
    assert AgentLog(now)[..|AgentLog(before)|] == AgentLog(before);
    RequestRuns.RequestsAreAudited(BackendRun(before), id);
  }

  // ------------------------------------------------------------------ a script that runs twice

  const MINUTE_ON: int := 61 * SECOND
  const WORLD := World(map[1 := Server(None)], map[7 := Some(1000)], map[1 := Link(1, true, false)])
  const REQUEST := CreateRequest([Item(1, Some(7), 0, HOUR, 1, None, None)], 1, Some("x"), None, None, true, 1, 0)
  const BOOKED := Row(1, 1, Some(7), 1, 1, 0, HOUR, Scheduled, None, None, Some("x"), Some(0), None, None, None)
  const DISPATCHED := BOOKED.(status := Active, scriptStatus := Some(ScriptRunning), dispatchStartedAt := Some(0))
  const ASKED_ONCE := Store([DISPATCHED],
    [Created(0, 1), Transition(0, Scheduled, Active), ScriptDispatched(0, 0)], [Execute(0, 0)])
  const ASKED_TWICE := Store([DISPATCHED.(dispatchStartedAt := Some(MINUTE_ON))],
    ASKED_ONCE.audit + [DispatchRetry(0, 1, MINUTE_ON)], [Execute(0, 0), Execute(0, MINUTE_ON)])

  function TickNow(now: int): Protocol.Step {
    Protocol.TickAt(Moment(now, {1}, {1}), Orders([0], [0], [0], [0]))
  }

  lemma Booking()
    ensures Protocol.StoreStep(Store([], [], []), Protocol.CreateBatch(REQUEST, WORLD)) == Store([BOOKED], [Created(0, 1)], [])
  {
    assert forall pass: Pass, k: nat :: k < 1 ==> PassError(pass, REQUEST, [], WORLD, k).None?;
    assert CreateAccepts(REQUEST, [], WORLD);
    assert NewRows(REQUEST) == [BOOKED];
  }

  lemma OneVisit(phase: Phase, s: Store, m: Moment)
    ensures RunPhase(phase, s, [0], m) == Visit(phase, s, 0, m)
  {
    hide Visit;
    assert RunPhase(phase, s, [0], m) == Visit(phase, RunPhase(phase, s, [0][..0], m), 0, m);
  }

  lemma OneRowTick(s: Store, m: Moment)
    ensures Tick(s, Orders([0], [0], [0], [0]), m) == Visit(Watch, Visit(Dispatch, Visit(Close, Visit(Promote, s, 0, m), 0, m), 0, m), 0, m)
  {
    hide Visit, RunPhase;
    var s1 := Visit(Promote, s, 0, m);
    OneVisit(Promote, s, m);
    var s2 := Visit(Close, s1, 0, m);
    OneVisit(Close, s1, m);
    OneVisit(Dispatch, s2, m);
    OneVisit(Watch, Visit(Dispatch, s2, 0, m), m);
  }

  lemma FirstAsked()
    ensures Protocol.StoreStep(Store([BOOKED], [Created(0, 1)], []), TickNow(0)) == ASKED_ONCE
  {
    OneRowTick(Store([BOOKED], [Created(0, 1)], []), Moment(0, {1}, {1}));
  }

  lemma AskedAgain()
    ensures Protocol.StoreStep(ASKED_ONCE, TickNow(MINUTE_ON)) == ASKED_TWICE
  {
    OneRowTick(ASKED_ONCE, Moment(MINUTE_ON, {1}, {1}));
    OnlyWatched();
    Watched();
    hide Visit, Tick;
  }

  lemma OnlyWatched()
    ensures var m := Moment(MINUTE_ON, {1}, {1});
      Visit(Promote, ASKED_ONCE, 0, m) == Visit(Close, ASKED_ONCE, 0, m) == Visit(Dispatch, ASKED_ONCE, 0, m) == ASKED_ONCE
  {
  }

  lemma Watched()
    ensures Visit(Watch, ASKED_ONCE, 0, Moment(MINUTE_ON, {1}, {1})) == ASKED_TWICE
  {
    assert !StartedSeen(ASKED_ONCE.audit, 0);
    NoFailures();
    hide FailureCount, StartedSeen;
  }

  lemma NoFailures()
    ensures FailureCount(ASKED_ONCE.audit, 0) == 0
  {
    var one := [Created(0, 1)];
    var two := one + [Transition(0, Scheduled, Active)];
    assert one[..0] == [] && two[..1] == one && ASKED_ONCE.audit[..2] == two;
  }

  lemma JoinAgent(joint: seq<JointStep>, step: ScriptRunner.Step)
    ensures var next := joint + [OnAgent(step)]; AgentLog(next) == AgentLog(joint) + [step] && BackendRun(next) == BackendRun(joint)
  {
    assert (joint + [OnAgent(step)])[..|joint|] == joint;
  }

  lemma JoinBackend(joint: seq<JointStep>, step: Protocol.Step)
    ensures var next := joint + [OnBackend(step)]; BackendRun(next) == BackendRun(joint) + [step] && AgentLog(next) == AgentLog(joint)
  {
    assert (joint + [OnBackend(step)])[..|joint|] == joint;
  }

  lemma HandledPush(log: seq<ScriptRunner.Step>, step: ScriptRunner.Step, reservation: int)
    ensures Handled(log + [step], reservation) == Handled(log, reservation) + if step == ScriptRunner.Execute(reservation) then 1 else 0
  {
    assert (log + [step])[..|log|] == log;
  }

  lemma AgentPush(log: seq<ScriptRunner.Step>, step: ScriptRunner.Step)
    ensures ScriptRunner.After(log + [step]) == ScriptRunner.Next(ScriptRunner.After(log), step)
  {
    hide ScriptRunner.Next;
    assert (log + [step])[..|log|] == log;
  }

  lemma BackendPush(run: seq<Protocol.Step>, step: Protocol.Step)
    ensures Protocol.After(Protocol.INIT, run + [step]) == Protocol.Next(Protocol.After(Protocol.INIT, run), step)
  {
    hide Protocol.Next;
    assert (run + [step])[..|run|] == run;
  }

  ghost predicate Owing(joint: seq<JointStep>, id: nat) {
    Handled(AgentLog(joint), id) <= |RowHistory.SendTimes(Backend(joint).store.sent, id)|
  }

  lemma RequestedPush(joint: seq<JointStep>, step: JointStep)
    requires Requested(joint) && forall id: nat :: Owing(joint + [step], id)
    ensures Requested(joint + [step])
  {
    hide AgentLog, Backend, Handled, RowHistory.SendTimes;
    var next := joint + [step];
    forall p: nat, id: nat | p <= |next|
      ensures Handled(AgentLog(next[..p]), id) <= |RowHistory.SendTimes(Backend(next[..p]).store.sent, id)|
    {
      assert Owing(next, id);
      assert next[..p] == if p <= |joint| then joint[..p] else next;
    }
  }

  lemma RequestedOwes(joint: seq<JointStep>, id: nat)
    requires Requested(joint)
    ensures Owing(joint, id)
  {
    hide AgentLog, Backend, Handled, RowHistory.SendTimes;
    assert joint[..|joint|] == joint;
  }

  lemma BackendStep(joint: seq<JointStep>, step: Protocol.Step)
    requires Requested(joint) && !Protocol.IsCallStep(step) && !step.ScriptFinished?
    requires Backend(joint).store.sent <= Protocol.StoreStep(Backend(joint).store, step).sent
    ensures var next := joint + [OnBackend(step)];
      && Requested(next) && AgentLog(next) == AgentLog(joint)
      && Backend(next).store == Protocol.StoreStep(Backend(joint).store, step)
  {
    var next := joint + [OnBackend(step)];
    JoinBackend(joint, step);
    BackendPush(BackendRun(joint), step);
    hide Protocol.StoreStep, RowHistory.SendTimes, Requested, AgentLog, BackendRun, Protocol.After, Handled;
    forall id: nat
      ensures Owing(next, id)
    {
      RequestedOwes(joint, id);
      SendsGrow(Backend(joint).store.sent, Backend(next).store.sent, id);
    }
    RequestedPush(joint, OnBackend(step));
  }

  lemma {:induction false} SendsGrow(before: seq<Execute>, after: seq<Execute>, id: nat)
    requires before <= after
    ensures |RowHistory.SendTimes(before, id)| <= |RowHistory.SendTimes(after, id)|
    decreases |after|
  {
    if |before| < |after| {
      SendsGrow(before, after[..|after| - 1], id);
    } else {
      assert before == after;
    }
  }

  /** An agent step that takes up no request, or one request that is still owed. */
  lemma AgentMoves(joint: seq<JointStep>, step: ScriptRunner.Step) returns (next: seq<JointStep>)
    requires Requested(joint)
    requires step.Execute? ==>
      step.reservation == 0 && Handled(AgentLog(joint), 0) < |RowHistory.SendTimes(Backend(joint).store.sent, 0)|
    ensures Requested(next) && Backend(next) == Backend(joint)
    ensures Agent(next) == ScriptRunner.Next(Agent(joint), step)
    ensures Handled(AgentLog(next), 0) == Handled(AgentLog(joint), 0) + if step.Execute? then 1 else 0
  {
    next := joint + [OnAgent(step)];
    hide ScriptRunner.Next, ScriptRunner.After, Protocol.After, RowHistory.SendTimes, Requested, AgentLog, BackendRun, Handled;
    JoinAgent(joint, step);
    AgentPush(AgentLog(joint), step);
    HandledPush(AgentLog(joint), step, 0);
    forall id: nat
      ensures Owing(next, id)
    {
      RequestedOwes(joint, id);
      HandledPush(AgentLog(joint), step, id);
    }
    RequestedPush(joint, OnAgent(step));
  }

  /** The agent runs the script of reservation 0 from its request to its clean-up. */
  lemma FirstRun(joint: seq<JointStep>) returns (next: seq<JointStep>)
    requires Requested(joint) && Agent(joint) == ScriptRunner.IDLE && Handled(AgentLog(joint), 0) == 0
    requires |RowHistory.SendTimes(Backend(joint).store.sent, 0)| >= 1
    ensures Requested(next) && Backend(next) == Backend(joint) && Handled(AgentLog(next), 0) == 1
    ensures var r := Agent(next);
      && r.handling.None? && r.running == map[] && r.scripts == [ScriptRunner.Script(0, false, false, None, false, Some(false), true, true)]
  {
    hide Backend, Agent, Requested, AgentLog, Handled, RowHistory.SendTimes;
    next := AgentMoves(joint, ScriptRunner.Execute(0));
    next := AgentMoves(next, ScriptRunner.Spawned(false));
    next := AgentMoves(next, ScriptRunner.Exit(0));
    next := AgentMoves(next, ScriptRunner.WaitReturns(0));
    next := AgentMoves(next, ScriptRunner.PushFinished(0));
    next := AgentMoves(next, ScriptRunner.CleanUp(0));
  }

  lemma Asked() returns (joint: seq<JointStep>)
    ensures Requested(joint) && Backend(joint).store == ASKED_ONCE
    ensures AgentLog(joint) == []
  {
    assert Requested([]);
    Booking();
    FirstAsked();
    hide Protocol.StoreStep, Requested, RowHistory.SendTimes;
    BackendStep([], Protocol.CreateBatch(REQUEST, WORLD));
    joint := [] + [OnBackend(Protocol.CreateBatch(REQUEST, WORLD))];
    BackendStep(joint, TickNow(0));
    joint := joint + [OnBackend(TickNow(0))];
  }

  /**
   * A script that has run to its end is run again: its events did not reach the backend within a minute of the first
   * request, the watchdog asks a second time, and the agent, with the first run cleaned up, takes the request up.
   */
  lemma LateEventsRunTwice() returns (joint: seq<JointStep>)
    ensures Requested(joint) && Retries(joint, 0) == 1
    ensures var scripts := Agent(joint).scripts;
      && |scripts| == 2 && scripts[0].reservation == scripts[1].reservation == 0
      && scripts[0].done && scripts[0].verdict == Some(false) && scripts[1].live
  {
    AskedAgain();
    Owed();
    joint := Asked();
    assert Agent(joint) == ScriptRunner.IDLE;
    hide Protocol.StoreStep, Requested, RowHistory.SendTimes, AgentLog, BackendRun, Protocol.After, ScriptRunner.After, RequestRuns.RetryCount;
    joint := FirstRun(joint);
    BackendStep(joint, TickNow(MINUTE_ON));
    joint := RunAgain(joint + [OnBackend(TickNow(MINUTE_ON))]);
  }

  lemma RunAgain(joint: seq<JointStep>) returns (next: seq<JointStep>)
    requires Requested(joint) && Handled(AgentLog(joint), 0) < |RowHistory.SendTimes(Backend(joint).store.sent, 0)|
    requires Agent(joint).handling.None? && Agent(joint).running == map[]
    ensures Requested(next) && Backend(next) == Backend(joint)
    ensures var scripts := Agent(next).scripts;
      |scripts| == |Agent(joint).scripts| + 1 && Agent(joint).scripts < scripts
      && scripts[|Agent(joint).scripts|] == ScriptRunner.Script(0, false, true, None, false, None, false, false)
  {
    hide Backend, Agent, Requested, AgentLog, Handled, RowHistory.SendTimes;
    next := AgentMoves(joint, ScriptRunner.Execute(0));
    next := AgentMoves(next, ScriptRunner.Spawned(false));
  }

  lemma Owed()
    ensures |RowHistory.SendTimes(ASKED_ONCE.sent, 0)| == 1 && |RowHistory.SendTimes(ASKED_TWICE.sent, 0)| == 2
    ensures RequestRuns.RetryCount(ASKED_TWICE.audit, 0) == 1
  {
    assert ASKED_ONCE.sent[..0] == [] && ASKED_TWICE.sent[..1] == ASKED_ONCE.sent;
    var one := [Created(0, 1)];
    var two := one + [Transition(0, Scheduled, Active)];
    assert one[..0] == [] && two[..1] == one && ASKED_ONCE.audit[..2] == two;
    RequestRuns.RetryPush(ASKED_ONCE.audit, DispatchRetry(0, 1, MINUTE_ON), 0);
  }
}
