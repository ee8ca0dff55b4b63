/** The agent's script runner: the running map, its background tasks, and the events they push. */
module ScriptRunner {
  import opened Prelude

  /**
   * One script that was started, with the background coroutine that waits for it. `verdict` is what that concluded about
   * being killed when its wait returned; `pushed` and `done` say how far its clean-up has come.
   */
  datatype Script = Script(
    reservation: int,
    mock: bool,
    live: bool,
    reason: Option<string>,
    overrun: bool,
    verdict: Option<bool>,
    pushed: bool,
    done: bool)

  datatype Event =
    | Started(reservation: int, n: nat)
    | Finished(reservation: int, n: nat, killed: bool, reason: Option<string>)

  /**
   * `handling` is the execute request being served; requests are handled one at a time. `fallbacks` are the late
   * kills still to fire: the reservation each will look up, and the script whose cancel scheduled it.
   */
  datatype Runner = Runner(
    handling: Option<int>,
    running: map<int, nat>,
    scripts: seq<Script>,
    events: seq<Event>,
    fallbacks: multiset<(int, nat)>)

  const IDLE := Runner(None, map[], [], [], multiset{})

  const MAX_RUNTIME := "max_runtime"

  datatype Step =
    | Execute(reservation: int)
    | SpawnFailed
    | Spawned(mock: bool)
    | Cancel(reservation: int, reason: string)
    | Exit(n: nat)
    | OverrunsLimit(n: nat)
    | WaitReturns(n: nat)
    | PushFinished(n: nat)
    | CleanUp(n: nat)
    | Fallback(reservation: int, scheduledFor: nat)

  predicate Waiting(r: Runner, n: nat) {
    n < |r.scripts| && r.scripts[n].verdict.None?
  }

  /** What `cancel` does to the running map's entry, and whether it schedules the late kill. */
  function Cancelled(r: Runner, reservation: int, reason: string): Runner {
    if reservation !in r.running || r.running[reservation] >= |r.scripts| then r
    else
      var n := r.running[reservation];
      var script := r.scripts[n];
      r.(scripts := r.scripts[n := script.(reason := Some(reason))],
         fallbacks := if !script.mock && script.live then r.fallbacks + multiset{(reservation, n)} else r.fallbacks)
  }

  /** A step that cannot happen leaves the state alone. */
  function Next(r: Runner, step: Step): Runner {
    match step
    case Execute(reservation) => if r.handling.None? && reservation !in r.running then r.(handling := Some(reservation)) else r
    case SpawnFailed => r.(handling := None)
    case Spawned(mock) =>
      if r.handling.None? then r
      else
        var reservation, n := r.handling.value, |r.scripts|;
        r.(handling := None,
           running := r.running[reservation := n],
           scripts := r.scripts + [Script(reservation, mock, true, None, false, None, false, false)],
           events := r.events + [Started(reservation, n)])
    case Cancel(reservation, reason) => if r.handling.None? then Cancelled(r, reservation, reason) else r
    case Exit(n) => if n < |r.scripts| then r.(scripts := r.scripts[n := r.scripts[n].(live := false)]) else r
    case OverrunsLimit(n) =>
      if Waiting(r, n) && !r.scripts[n].mock then
        var reason := if r.scripts[n].reason.Some? && r.scripts[n].reason.value != "" then r.scripts[n].reason else Some(MAX_RUNTIME);
        r.(scripts := r.scripts[n := r.scripts[n].(overrun := true, reason := reason)])
      else r
    case WaitReturns(n) =>
      if Waiting(r, n) && !r.scripts[n].live then
        r.(scripts := r.scripts[n := r.scripts[n].(verdict := Some(r.scripts[n].overrun || r.scripts[n].reason.Some?))])
      else r
    case PushFinished(n) =>
      if n < |r.scripts| && r.scripts[n].verdict.Some? && !r.scripts[n].pushed then
        var script := r.scripts[n];
        r.(scripts := r.scripts[n := script.(pushed := true)],
           events := r.events + [Finished(script.reservation, n, script.verdict.value, script.reason)])
      else r
    case CleanUp(n) =>
      if n < |r.scripts| && r.scripts[n].pushed && !r.scripts[n].done then
        r.(scripts := r.scripts[n := r.scripts[n].(done := true)], running := r.running - {r.scripts[n].reservation})
      else r
    case Fallback(reservation, scheduledFor) =>
      if (reservation, scheduledFor) !in r.fallbacks then r
      else
        var s := r.(fallbacks := r.fallbacks - multiset{(reservation, scheduledFor)});
        if reservation !in r.running || r.running[reservation] >= |r.scripts| || r.scripts[r.running[reservation]].mock then s
        else s.(scripts := r.scripts[r.running[reservation] := r.scripts[r.running[reservation]].(live := false)])
  }

  function After(log: seq<Step>): Runner {
    if log == [] then IDLE else Next(After(log[..|log| - 1]), log[|log| - 1])
  }

  // ----- the runner's maps, updated in place -----

  datatype Reply = AlreadyRunning | Accepted | NoProcess | AlreadyExited | Signalled | MockMarked

  class Maps {
    var handling: Option<int>
    var running: map<int, nat>
    var scripts: seq<Script>
    var events: seq<Event>
    var fallbacks: multiset<(int, nat)>

    function Value(): Runner
      reads this
    {
      Runner(handling, running, scripts, events, fallbacks)
    }

    constructor ()
      ensures Value() == IDLE
    {
      handling, running, scripts, events, fallbacks := None, map[], [], [], multiset{};
    }

    /** `execute` up to its first await. */
    method BeginExecute(reservation: int) returns (reply: Reply)
      requires handling.None?
      modifies this`handling
      ensures Value() == Next(old(Value()), Execute(reservation))
      ensures reply == if reservation in running then AlreadyRunning else Accepted
    {
      if reservation in running {
        return AlreadyRunning;
      }
      handling := Some(reservation);
      reply := Accepted;
    }

    /** The process exists: register its entry and its task, then push the started event. */
    method Register(mock: bool)
      requires handling.Some?
      modifies this
      ensures Value() == Next(old(Value()), Spawned(mock))
    {
      var reservation := handling.value;
      running := running[reservation := |scripts|];
      events := events + [Started(reservation, |scripts|)];
      scripts := scripts + [Script(reservation, mock, true, None, false, None, false, false)];
      handling := None;
    }

    method CancelScript(reservation: int, reason: string) returns (reply: Reply)
      requires handling.None? && Registered(Value())
      modifies this`scripts, this`fallbacks
      ensures Value() == Next(old(Value()), Cancel(reservation, reason))
      ensures reply == if reservation !in running then NoProcess
                       else if scripts[running[reservation]].mock then MockMarked
                       else if scripts[running[reservation]].live then Signalled else AlreadyExited
    {
      if reservation !in running {
        return NoProcess;
      }
      var n := running[reservation];
      scripts := scripts[n := scripts[n].(reason := Some(reason))];
      if scripts[n].mock {
        return MockMarked;
      }
      if !scripts[n].live {
        return AlreadyExited;
      }
      fallbacks := fallbacks + multiset{(reservation, n)};
      reply := Signalled;
    }

    /** The end of a waiting task. */
    method PushAndCleanUp(n: nat)
      requires n < |scripts| && scripts[n].verdict.Some? && !scripts[n].pushed && !scripts[n].done
      modifies this
      ensures Value() == Next(Next(old(Value()), PushFinished(n)), CleanUp(n))
    {
      events := events + [Finished(scripts[n].reservation, n, scripts[n].verdict.value, scripts[n].reason)];
      scripts := scripts[n := scripts[n].(pushed := true)];
      running := running - {scripts[n].reservation};
      scripts := scripts[n := scripts[n].(done := true)];
    }
  }

  // ----- the running map and the scripts -----

  predicate Registered(r: Runner) {
    forall id :: id in r.running ==> r.running[id] < |r.scripts|
  }

  /** The map holds exactly the scripts whose task has not cleaned up, each under its own reservation. */
  predicate Sound(r: Runner) {
    && Registered(r)
    && (forall id :: id in r.running ==> r.scripts[r.running[id]].reservation == id && !r.scripts[r.running[id]].done)
    && (forall n :: 0 <= n < |r.scripts| && !r.scripts[n].done ==>
          r.scripts[n].reservation in r.running && r.running[r.scripts[n].reservation] == n)
    && (r.handling.Some? ==> r.handling.value !in r.running)
    && (forall n :: 0 <= n < |r.scripts| ==> Orderly(r.scripts[n]))
  }

  /** A task concludes after its process ended, pushes after that, and cleans up last. */
  predicate Orderly(s: Script) {
    (s.verdict.Some? ==> !s.live) && (s.pushed ==> s.verdict.Some?) && (s.done ==> s.pushed) && (s.overrun ==> s.reason.Some?)
  }

  lemma UpdateKeepsSound(r: Runner, n: nat, s: Script)
    requires Sound(r) && n < |r.scripts| && Orderly(s)
    requires s.reservation == r.scripts[n].reservation && s.done == r.scripts[n].done
    ensures Sound(r.(scripts := r.scripts[n := s]))
  {
  }

  lemma SpawnKeepsSound(r: Runner, mock: bool)
    requires Sound(r)
    ensures Sound(Next(r, Spawned(mock)))
  {
  }

  lemma CleanUpKeepsSound(r: Runner, n: nat)
    requires Sound(r)
    ensures Sound(Next(r, CleanUp(n)))
  {
  }

  lemma KillKeepsSound(r: Runner, step: Step)
    requires Sound(r) && (step.Cancel? || step.Fallback?)
    ensures Sound(Next(r, step))
  {
    var s := Next(r, step);
    if step.reservation in r.running && s.scripts != r.scripts {
      var n := r.running[step.reservation];
      UpdateKeepsSound(r, n, s.scripts[n]);
    }
    SameMaps(r.(scripts := s.scripts), s);
  }

  lemma TaskKeepsSound(r: Runner, step: Step)
    requires Sound(r) && (step.Exit? || step.OverrunsLimit? || step.WaitReturns? || step.PushFinished?)
    ensures Sound(Next(r, step))
  {
    var s := Next(r, step);
    if s.scripts != r.scripts {
      UpdateKeepsSound(r, step.n, s.scripts[step.n]);
    }
    SameMaps(r.(scripts := s.scripts), s);
  }

  lemma NextKeepsSound(r: Runner, step: Step)
    requires Sound(r)
    ensures Sound(Next(r, step))
  {
    if step.Cancel? || step.Fallback? {
      KillKeepsSound(r, step);
    } else if step.Spawned? {
      SpawnKeepsSound(r, step.mock);
    } else if step.CleanUp? {
      CleanUpKeepsSound(r, step.n);
    } else if !step.Execute? && !step.SpawnFailed? {
      TaskKeepsSound(r, step);
    }
  }

  /** Only the running map, the scripts and the request being handled matter. */
  lemma SameMaps(r: Runner, s: Runner)
    requires Sound(r) && s.running == r.running && s.scripts == r.scripts && s.handling == r.handling
    ensures Sound(s)
  {
  }

  lemma {:induction false} RunIsSound(log: seq<Step>)
    ensures Sound(After(log))
  {
    hide Next;
    if log != [] {
      RunIsSound(log[..|log| - 1]);
      NextKeepsSound(After(log[..|log| - 1]), log[|log| - 1]);
    }
  }

  /** In every run a reservation has at most one live script, and that one can be reached through the running map. */
  lemma AtMostOneLive(log: seq<Step>, m: nat, n: nat)
    requires m < |After(log).scripts| && n < |After(log).scripts|
    requires After(log).scripts[m].live && After(log).scripts[n].live
    requires After(log).scripts[m].reservation == After(log).scripts[n].reservation
    ensures m == n
    ensures var r := After(log); var id := r.scripts[m].reservation; id in r.running && r.running[id] == m
  {
    hide After, Next;
    RunIsSound(log);
  }

  // ----- every start has one finish -----

  function Starts(events: seq<Event>, reservation: int): nat {
    if events == [] then 0
    else
      var last := events[|events| - 1];
      Starts(events[..|events| - 1], reservation) + if last.Started? && last.reservation == reservation then 1 else 0
  }

  function Finishes(events: seq<Event>, reservation: int): nat {
    if events == [] then 0
    else
      var last := events[|events| - 1];
      Finishes(events[..|events| - 1], reservation) + if last.Finished? && last.reservation == reservation then 1 else 0
  }

  /** A script of the reservation was started and its finished event is still to come. */
  predicate Open(r: Runner, reservation: int) {
    reservation in r.running && r.running[reservation] < |r.scripts| && !r.scripts[r.running[reservation]].pushed
  }

  lemma NextBalances(r: Runner, step: Step, reservation: int)
    requires Sound(r)
    requires Starts(r.events, reservation) == Finishes(r.events, reservation) + if Open(r, reservation) then 1 else 0
    ensures var s := Next(r, step);
            Starts(s.events, reservation) == Finishes(s.events, reservation) + if Open(s, reservation) then 1 else 0
  {
    hide Starts, Finishes;
    var s := Next(r, step);
    if s.events != r.events {
      assert s.events == r.events + [s.events[|r.events|]];
      EventsAppend(r.events, s.events[|r.events|], reservation);
    }
  }

  lemma EventsAppend(events: seq<Event>, e: Event, reservation: int)
    ensures Starts(events + [e], reservation)
            == Starts(events, reservation) + if e.Started? && e.reservation == reservation then 1 else 0
    ensures Finishes(events + [e], reservation)
            == Finishes(events, reservation) + if e.Finished? && e.reservation == reservation then 1 else 0
  {
    assert (events + [e])[..|events|] == events;
  }

  /** Started and finished events alternate: each start is followed by exactly one finish, except the one still open. */
  lemma {:induction false} StartsAndFinishesBalance(log: seq<Step>, reservation: int)
    ensures var r := After(log);
            Starts(r.events, reservation) == Finishes(r.events, reservation) + if Open(r, reservation) then 1 else 0
  {
    hide Next, Sound, Open;
    if log == [] {
      assert !Open(IDLE, reservation) by { NothingOpen(reservation); }
    } else {
      var before := log[..|log| - 1];
      RunIsSound(before);
      StartsAndFinishesBalance(before, reservation);
      NextBalances(After(before), log[|log| - 1], reservation);
    }
  }

  lemma NothingOpen(reservation: int)
    ensures !Open(IDLE, reservation)
  {
  }

  // ----- what a kill flag means -----

  /** The step gives script n, still waited for, a reason to count as killed. */
  predicate Kills(r: Runner, step: Step, n: nat) {
    && Waiting(r, n)
    && match step
       case Cancel(reservation, _) => r.handling.None? && reservation in r.running && r.running[reservation] == n
       case OverrunsLimit(m) => m == n && !r.scripts[n].mock
       case _ => false
  }

  ghost predicate WasKilled(log: seq<Step>, n: nat) {
    exists i :: 0 <= i < |log| && Kills(After(log[..i]), log[i], n)
  }

  /** What is known of script n, when `killed` says whether some step has killed it. */
  predicate Accounted(r: Runner, n: nat, killed: bool) {
    n < |r.scripts| ==>
      if r.scripts[n].verdict.None? then r.scripts[n].reason.Some? == killed else r.scripts[n].verdict == Some(killed)
  }

  lemma NextAccounts(r: Runner, step: Step, n: nat, killed: bool)
    requires Sound(r) && Accounted(r, n, killed) && (n >= |r.scripts| ==> !killed)
    ensures Accounted(Next(r, step), n, killed || Kills(r, step, n))
  {
    if n < |r.scripts| {
      StepOnScript(r, step, n);
      hide Next, Sound;
    } else {
      NewScriptIsFresh(r, step, n);
      hide Next, Sound;
    }
  }

  /** A killing step gives a waiting script its reason; only the return of its wait turns that into a verdict. */
  lemma StepOnScript(r: Runner, step: Step, n: nat)
    requires Sound(r) && n < |r.scripts|
    ensures var s := Next(r, step);
            && n < |s.scripts|
            && (r.scripts[n].verdict.Some? ==> s.scripts[n].verdict == r.scripts[n].verdict)
            && (r.scripts[n].verdict.None? && s.scripts[n].verdict.None? ==>
                  s.scripts[n].reason.Some? == (r.scripts[n].reason.Some? || Kills(r, step, n)))
            && (r.scripts[n].verdict.None? && s.scripts[n].verdict.Some? ==>
                  s.scripts[n].verdict == Some(r.scripts[n].reason.Some?) && !Kills(r, step, n))
  {
    assert Orderly(r.scripts[n]) && Registered(r);
    hide Sound, Orderly;
  }

  lemma NewScriptIsFresh(r: Runner, step: Step, n: nat)
    requires |r.scripts| <= n < |Next(r, step).scripts| || n >= |Next(r, step).scripts|
    ensures n < |Next(r, step).scripts| && n >= |r.scripts| ==>
              Next(r, step).scripts[n].verdict.None? && Next(r, step).scripts[n].reason.None?
    ensures n >= |r.scripts| ==> !Kills(r, step, n)
  {
  }

  lemma {:induction false} VerdictsAreAccounted(log: seq<Step>, n: nat)
    ensures Accounted(After(log), n, WasKilled(log, n))
    ensures n >= |After(log).scripts| ==> !WasKilled(log, n)
  {
    hide Next, Sound, Kills, Accounted;
    if log == [] {
      assert Accounted(IDLE, n, false) by { NothingKilled(n); }
    } else {
      var before, step := log[..|log| - 1], log[|log| - 1];
      RunIsSound(before);
      VerdictsAreAccounted(before, n);
      NextAccounts(After(before), step, n, WasKilled(before, n));
      KilledSoFar(log, n);
      KillsOnlyStarted(After(before), step, n);
    }
  }

  lemma NothingKilled(n: nat)
    ensures Accounted(IDLE, n, false)
  {
  }

  lemma KillsOnlyStarted(r: Runner, step: Step, n: nat)
    ensures |r.scripts| <= |Next(r, step).scripts|
    ensures Kills(r, step, n) ==> n < |r.scripts|
  {
  }

  lemma KilledSoFar(log: seq<Step>, n: nat)
    requires log != []
    ensures WasKilled(log, n) <==> WasKilled(log[..|log| - 1], n) || Kills(After(log[..|log| - 1]), log[|log| - 1], n)
  {
    hide Kills, After;
    var before := log[..|log| - 1];
    assert forall i :: 0 <= i < |before| ==> before[..i] == log[..i] && before[i] == log[i];
    assert log[..|before|] == before;
  }

  lemma {:induction false} FinishesTellVerdicts(log: seq<Step>, k: nat)
    requires k < |After(log).events| && After(log).events[k].Finished?
    ensures var e := After(log).events[k];
            e.n < |After(log).scripts| && After(log).scripts[e.n].reservation == e.reservation
            && After(log).scripts[e.n].verdict == Some(e.killed)
  {
    hide Next;
    if log != [] {
      var before, step := log[..|log| - 1], log[|log| - 1];
      NextTells(After(before), step);
      if k < |After(before).events| {
        FinishesTellVerdicts(before, k);
      } else {
        NewEventTells(After(before), step, k);
      }
    }
  }

  /** Events and verdicts stay. */
  lemma NextTells(r: Runner, step: Step)
    ensures var s := Next(r, step);
            && |r.scripts| <= |s.scripts| && r.events <= s.events
            && (forall n :: 0 <= n < |r.scripts| ==> s.scripts[n].reservation == r.scripts[n].reservation
                                                     && (r.scripts[n].verdict.Some? ==> s.scripts[n].verdict == r.scripts[n].verdict))
  {
  }

  lemma NewEventTells(r: Runner, step: Step, k: nat)
    requires |r.events| <= k < |Next(r, step).events| && Next(r, step).events[k].Finished?
    ensures var s := Next(r, step);
            var e := s.events[k];
            e.n < |s.scripts| && s.scripts[e.n].reservation == e.reservation && s.scripts[e.n].verdict == Some(e.killed)
  {
    assert step.PushFinished? && k == |r.events|;
  }

  /**
   * A finished event says the platform killed the script exactly when, while its task was still waiting, a cancel
   * request for it was handled or its own run-time limit ran out.
   */
  lemma KilledFlagIsExact(log: seq<Step>, k: nat)
    requires k < |After(log).events| && After(log).events[k].Finished?
    ensures var e := After(log).events[k]; e.killed <==> WasKilled(log, e.n)
  {
    hide Next, Sound, Kills;
    FinishesTellVerdicts(log, k);
    VerdictsAreAccounted(log, After(log).events[k].n);
  }

  // ----- the reason a finish carries -----

  /** The cancel reaches script n: nothing else is being handled, and the map leads to it. */
  predicate Reaches(r: Runner, step: Step, n: nat) {
    step.Cancel? && r.handling.None? && step.reservation in r.running && r.running[step.reservation] == n
  }

  /**
   * The reason last given to script n: that of the last cancel that reached it, even an empty one, or its run-time
   * limit if that ran out while the task waited and no cancel had given one.
   */
  function LastGiven(log: seq<Step>, n: nat): Option<string> {
    if log == [] then None
    else
      var before, step := log[..|log| - 1], log[|log| - 1];
      var given, r := LastGiven(before, n), After(before);
      if Reaches(r, step, n) then Some(step.reason)
      else if step == OverrunsLimit(n) && Waiting(r, n) && !r.scripts[n].mock && (given == None || given == Some("")) then Some("max_runtime")
      else given
  }

  lemma NextGives(r: Runner, step: Step, n: nat, given: Option<string>)
    requires Sound(r)
    requires if n < |r.scripts| then r.scripts[n].reason == given else given == None
    ensures var s := Next(r, step);
            var now := if Reaches(r, step, n) then Some(step.reason)
                       else if step == OverrunsLimit(n) && Waiting(r, n) && !r.scripts[n].mock && (given == None || given == Some(""))
                       then Some("max_runtime") else given;
            if n < |s.scripts| then s.scripts[n].reason == now else now == None
  {
    assert Registered(r);
    hide Sound;
  }

  lemma {:induction false} ReasonsAreGiven(log: seq<Step>, n: nat)
    ensures if n < |After(log).scripts| then After(log).scripts[n].reason == LastGiven(log, n) else LastGiven(log, n) == None
  {
    hide Next, Sound, Reaches, Waiting;
    if log != [] {
      var before := log[..|log| - 1];
      RunIsSound(before);
      ReasonsAreGiven(before, n);
      NextGives(After(before), log[|log| - 1], n, LastGiven(before, n));
    }
  }

  lemma PushedEvent(r: Runner, step: Step, k: nat)
    requires |r.events| <= k < |Next(r, step).events| && Next(r, step).events[k].Finished?
    ensures var e := Next(r, step).events[k];
            step == PushFinished(e.n) && e.n < |r.scripts| && r.scripts[e.n].reason == e.reason
  {
  }

  /** A finished event carries the reason last given to its script when it was pushed. */
  lemma {:induction false} FinishCarriesReason(log: seq<Step>, m: nat, k: nat) returns (p: nat)
    requires m <= |log| && k < |After(log[..m]).events| && After(log[..m]).events[k].Finished?
    ensures var e := After(log[..m]).events[k];
            p < m && log[p] == PushFinished(e.n) && e.reason == LastGiven(log[..p], e.n)
    decreases m
  {
    assert log[..0] == [];
    var before := log[..m - 1];
    assert log[..m][..m - 1] == before;
    hide Next, LastGiven;
    NextTells(After(before), log[m - 1]);
    if k < |After(before).events| {
      p := FinishCarriesReason(log, m - 1, k);
    } else {
      PushedEvent(After(before), log[m - 1], k);
      ReasonsAreGiven(before, After(log[..m]).events[k].n);
      p := m - 1;
    }
  }

  // ----- one script from its request to its clean-up -----

  /** The state after more steps. */
  function Steps(r: Runner, steps: seq<Step>): Runner
    decreases |steps|
  {
    if steps == [] then r else Steps(Next(r, steps[0]), steps[1..])
  }

  lemma OneStep(r: Runner, step: Step, more: seq<Step>)
    ensures Steps(r, [step] + more) == Steps(Next(r, step), more)
  {
    assert ([step] + more)[1..] == more;
  }

  /** A request whose process cannot be started leaves no trace, and the next one can be taken up. */
  lemma FailedSpawnLeavesNoTrace(r: Runner, reservation: int)
    requires r.handling.None?
    ensures Steps(r, [Execute(reservation), SpawnFailed]) == r
  {
    OneStep(r, Execute(reservation), [SpawnFailed]);
    OneStep(Next(r, Execute(reservation)), SpawnFailed, []);
  }

  lemma Taken(r: Runner, reservation: int, mock: bool)
    requires r.handling.None? && reservation !in r.running
    ensures Next(Next(r, Execute(reservation)), Spawned(mock))
            == r.(running := r.running[reservation := |r.scripts|],
                  scripts := r.scripts + [Script(reservation, mock, true, None, false, None, false, false)],
                  events := r.events + [Started(reservation, |r.scripts|)])
  {
  }

  lemma Concluded(r: Runner, n: nat)
    requires n < |r.scripts| && r.scripts[n].verdict.None? && !r.scripts[n].overrun && !r.scripts[n].pushed && !r.scripts[n].done
    ensures var script := r.scripts[n];
            var ended := script.(live := false, verdict := Some(script.reason.Some?), pushed := true, done := true);
            Next(Next(Next(Next(r, Exit(n)), WaitReturns(n)), PushFinished(n)), CleanUp(n))
            == r.(running := r.running - {script.reservation}, scripts := r.scripts[n := ended],
                  events := r.events + [Finished(script.reservation, n, script.reason.Some?, script.reason)])
  {
    var script := r.scripts[n];
    var a := Next(r, Exit(n));
    assert a.scripts == r.scripts[n := script.(live := false)];
    var b := Next(a, WaitReturns(n));
    assert b.scripts == r.scripts[n := script.(live := false, verdict := Some(script.reason.Some?))];
    var c := Next(b, PushFinished(n));
    assert c.scripts == r.scripts[n := script.(live := false, verdict := Some(script.reason.Some?), pushed := true)];
  }

  /**
   * A request taken up by an idle runner is started, runs, and is reported as finished and not killed once its process
   * has exited; afterwards the reservation is free again and nothing else has changed.
   */
  lemma ScriptRunsThrough(r: Runner, reservation: int, mock: bool)
    requires r.handling.None? && reservation !in r.running
    ensures var n := |r.scripts|;
            var s := Steps(r, [Execute(reservation), Spawned(mock), Exit(n), WaitReturns(n), PushFinished(n), CleanUp(n)]);
            && s.running == r.running && s.handling.None? && s.fallbacks == r.fallbacks
            && s.scripts == r.scripts + [Script(reservation, mock, false, None, false, Some(false), true, true)]
            && s.events == r.events + [Started(reservation, n), Finished(reservation, n, false, None)]
  {
    hide Next;
    var n := |r.scripts|;
    Taken(r, reservation, mock);
    var taken := Next(Next(r, Execute(reservation)), Spawned(mock));
    Concluded(taken, n);
    OneStep(r, Execute(reservation), [Spawned(mock), Exit(n), WaitReturns(n), PushFinished(n), CleanUp(n)]);
    OneStep(Next(r, Execute(reservation)), Spawned(mock), [Exit(n), WaitReturns(n), PushFinished(n), CleanUp(n)]);
    FourSteps(taken, n);
  }

  lemma FourSteps(r: Runner, n: nat)
    ensures Steps(r, [Exit(n), WaitReturns(n), PushFinished(n), CleanUp(n)])
            == Next(Next(Next(Next(r, Exit(n)), WaitReturns(n)), PushFinished(n)), CleanUp(n))
  {
    hide Next;
    var a := Next(r, Exit(n));
    OneStep(r, Exit(n), [WaitReturns(n), PushFinished(n), CleanUp(n)]);
    OneStep(a, WaitReturns(n), [PushFinished(n), CleanUp(n)]);
    OneStep(Next(a, WaitReturns(n)), PushFinished(n), [CleanUp(n)]);
    OneStep(Next(Next(a, WaitReturns(n)), PushFinished(n)), CleanUp(n), []);
  }

  /**
   * A cancel that reaches a waiting script is reported, once its process has exited, as a kill with the cancel's reason;
   * a late kill is scheduled exactly for a real script that was still live, and the reservation is free again.
   */
  lemma CancelIsReported(r: Runner, reservation: int, reason: string)
    requires Sound(r) && r.handling.None? && reservation in r.running
    requires r.scripts[r.running[reservation]].verdict.None? && !r.scripts[r.running[reservation]].overrun
    ensures var n := r.running[reservation];
            var s := Steps(r, [Cancel(reservation, reason), Exit(n), WaitReturns(n), PushFinished(n), CleanUp(n)]);
            && s.running == r.running - {reservation}
            && s.events == r.events + [Finished(reservation, n, true, Some(reason))]
            && s.fallbacks == (if !r.scripts[n].mock && r.scripts[n].live then r.fallbacks + multiset{(reservation, n)} else r.fallbacks)
  {
    var n := r.running[reservation];
    var cancelled := Next(r, Cancel(reservation, reason));
    assert Orderly(r.scripts[n]) && r.scripts[n].reservation == reservation;
    assert cancelled.scripts == r.scripts[n := r.scripts[n].(reason := Some(reason))];
    hide Next, Sound;
    Concluded(cancelled, n);
    OneStep(r, Cancel(reservation, reason), [Exit(n), WaitReturns(n), PushFinished(n), CleanUp(n)]);
    FourSteps(cancelled, n);
  }

  /** A late kill that fires while its own script is still in the map ends its process. */
  lemma LateKillEndsItsOwn(r: Runner, reservation: int, n: nat)
    requires Sound(r) && FallbacksKnown(r) && (reservation, n) in r.fallbacks && !r.scripts[n].done
    ensures var s := Next(r, Fallback(reservation, n));
            && |s.scripts| == |r.scripts| && s.scripts == r.scripts[n := r.scripts[n].(live := false)]
            && s.fallbacks == r.fallbacks - multiset{(reservation, n)} && s.events == r.events && s.running == r.running
  {
    assert r.scripts[n].reservation == reservation && r.running[reservation] == n;
  }

  // ----- the late kill -----

  /** Every late kill belongs to a real script of its reservation. */
  predicate FallbacksKnown(r: Runner) {
    forall f :: f in r.fallbacks ==> f.1 < |r.scripts| && r.scripts[f.1].reservation == f.0 && !r.scripts[f.1].mock
  }

  /** The scripts of one reservation run one after another: an earlier one has been cleaned up before a later one starts. */
  predicate OneByOne(r: Runner) {
    forall m, n :: 0 <= m < n < |r.scripts| && r.scripts[m].reservation == r.scripts[n].reservation ==> r.scripts[m].done
  }

  lemma NextKeepsFallbacks(r: Runner, step: Step)
    requires Sound(r) && FallbacksKnown(r)
    ensures FallbacksKnown(Next(r, step))
  {
    var s := Next(r, step);
    ScriptsKeepIdentity(r, step);
    forall f | f in s.fallbacks
      ensures f.1 < |s.scripts| && s.scripts[f.1].reservation == f.0 && !s.scripts[f.1].mock
    {
      if f !in r.fallbacks {
        NewFallback(r, step, f);
      }
    }
  }

  lemma NewFallback(r: Runner, step: Step, f: (int, nat))
    requires Sound(r) && f in Next(r, step).fallbacks && f !in r.fallbacks
    ensures step.Cancel? && f.0 == step.reservation && f.0 in r.running && f.1 == r.running[f.0]
    ensures f.1 < |r.scripts| && r.scripts[f.1].reservation == f.0 && !r.scripts[f.1].mock
  {
  }

  lemma ScriptsKeepIdentity(r: Runner, step: Step)
    ensures var s := Next(r, step);
            && |r.scripts| <= |s.scripts|
            && (forall n :: 0 <= n < |r.scripts| ==>
                  && s.scripts[n].reservation == r.scripts[n].reservation && s.scripts[n].mock == r.scripts[n].mock
                  && (r.scripts[n].done ==> s.scripts[n].done))
            && (|s.scripts| > |r.scripts| ==>
                  |s.scripts| == |r.scripts| + 1 && r.handling == Some(s.scripts[|r.scripts|].reservation))
  {
  }

  lemma NextKeepsOneByOne(r: Runner, step: Step)
    requires Sound(r) && OneByOne(r)
    ensures OneByOne(Next(r, step))
  {
    var s := Next(r, step);
    ScriptsKeepIdentity(r, step);
    hide Next;
    forall m, n | 0 <= m < n < |s.scripts| && s.scripts[m].reservation == s.scripts[n].reservation
      ensures s.scripts[m].done
    {
      if n == |r.scripts| {
        assert r.scripts[m].reservation !in r.running;
      } else {
        assert r.scripts[m].done;
      }
    }
  }

  lemma {:induction false} RunsOneByOne(log: seq<Step>)
    ensures OneByOne(After(log)) && FallbacksKnown(After(log))
  {
    hide Next, Sound, OneByOne, FallbacksKnown;
    NothingYet();
    if log != [] {
      var before := log[..|log| - 1];
      RunIsSound(before);
      RunsOneByOne(before);
      NextKeepsOneByOne(After(before), log[|log| - 1]);
      NextKeepsFallbacks(After(before), log[|log| - 1]);
    }
  }

  lemma NothingYet()
    ensures OneByOne(IDLE) && FallbacksKnown(IDLE)
  {
  }

  /** The step ends script m. */
  predicate Ends(r: Runner, step: Step, m: nat) {
    m < |r.scripts| && r.scripts[m].live && !(m < |Next(r, step).scripts| && Next(r, step).scripts[m].live)
  }

  /**
   * In any run, the late kill that the cancel of script n scheduled ends a script other than n exactly when n was
   * cleaned up and a real script, registered after n, is live under the reservation when the kill fires.
   */
  lemma LateKillMissesExactly(log: seq<Step>, reservation: int, n: nat)
    requires (reservation, n) in After(log).fallbacks
    ensures var r := After(log);
            && n < |r.scripts|
            && ((exists m :: m != n && Ends(r, Fallback(reservation, n), m))
                <==> && r.scripts[n].done && reservation in r.running && n < r.running[reservation] < |r.scripts|
                     && r.scripts[r.running[reservation]].live && !r.scripts[r.running[reservation]].mock)
  {
    hide After;
    RunIsSound(log);
    RunsOneByOne(log);
    var r := After(log);
    if reservation in r.running {
      var m := r.running[reservation];
      assert r.scripts[m].reservation == r.scripts[n].reservation == reservation;
      FallbackEnds(r, reservation, n, m);
      hide Ends, Next;
      assert !r.scripts[m].done;
      assert r.scripts[n].done ==> n < m;
      assert !r.scripts[n].done ==> m == n;
      assert Ends(r, Fallback(reservation, n), m) <==> r.scripts[m].live && !r.scripts[m].mock;
    } else {
      assert Next(r, Fallback(reservation, n)).scripts == r.scripts;
    }
  }

  lemma FallbackEnds(r: Runner, reservation: int, n: nat, m: nat)
    requires (reservation, n) in r.fallbacks && reservation in r.running && r.running[reservation] == m < |r.scripts|
    ensures forall k :: Ends(r, Fallback(reservation, n), k) <==> k == m && r.scripts[m].live && !r.scripts[m].mock
  {
  }

  /** The script a late kill ends is reported as killed exactly when that same script had been given a reason. */
  lemma LateKillIsReportedExactly(r: Runner, reservation: int, n: nat)
    requires Sound(r) && (reservation, n) in r.fallbacks && reservation in r.running
    requires var s := r.scripts[r.running[reservation]]; s.live && !s.mock
    ensures var m := r.running[reservation];
            var end := Next(Next(Next(r, Fallback(reservation, n)), WaitReturns(m)), PushFinished(m));
            && !end.scripts[m].live
            && end.events == r.events + [Finished(reservation, m, r.scripts[m].reason.Some?, r.scripts[m].reason)]
  {
    var m := r.running[reservation];
    var hit := Next(r, Fallback(reservation, n));
    assert hit.scripts == r.scripts[m := r.scripts[m].(live := false)];
    var ended := Next(hit, WaitReturns(m));
    assert ended.scripts[m].verdict == Some(r.scripts[m].reason.Some?);
  }

  // ----- a run in which it misses -----

  lemma Take(log: seq<Step>, step: Step) returns (more: seq<Step>)
    ensures more == log + [step] && After(more) == Next(After(log), step)
  {
    more := log + [step];
    assert more[..|log|] == log;
  }

  /** A run in which reservation 7 is cancelled, ends, is cleaned up and starts again with the cancel's late kill still to come. */
  lemma Restart() returns (log: seq<Step>)
    ensures var r := After(log);
            && r.running == map[7 := 1] && (7, 0) in r.fallbacks
            && |r.scripts| == 2 && r.scripts[1] == Script(7, false, true, None, false, None, false, false)
  {
    hide After;
    log := FirstRound();
    log := Take(log, Execute(7));
    log := Take(log, Spawned(false));
  }

  lemma FirstRound() returns (log: seq<Step>)
    ensures var r := After(log);
            && r.running == map[] && r.handling == None && (7, 0) in r.fallbacks && |r.scripts| == 1
  {
    hide After, Next;
    StartsIdle();
    log := [];
    log := Take(log, Execute(7));
    log := Take(log, Spawned(false));
    FirstStarts();
    var r := After(log);
    log := Take(log, Cancel(7, "user"));
    log := Take(log, Exit(0));
    log := Take(log, WaitReturns(0));
    log := Take(log, PushFinished(0));
    log := Take(log, CleanUp(0));
    CancelledEnds(r);
  }

  lemma FirstStarts()
    ensures var r := Next(Next(IDLE, Execute(7)), Spawned(false));
            r == Runner(None, map[7 := 0], [Script(7, false, true, None, false, None, false, false)], [Started(7, 0)], multiset{})
  {
  }

  lemma CancelledEnds(r: Runner)
    requires r.running == map[7 := 0] && r.handling == None && |r.scripts| == 1
    requires r.scripts[0] == Script(7, false, true, None, false, None, false, false)
    ensures var s := Next(Next(Next(r, Cancel(7, "user")), Exit(0)), WaitReturns(0));
            var t := Next(Next(s, PushFinished(0)), CleanUp(0));
            t.running == map[] && t.handling == None && (7, 0) in t.fallbacks && |t.scripts| == 1
  {
    var s := Next(Next(Next(r, Cancel(7, "user")), Exit(0)), WaitReturns(0));
    assert s.scripts[0].verdict == Some(true) && !s.scripts[0].pushed && s.running == r.running && (7, 0) in s.fallbacks;
  }

  lemma StartsIdle()
    ensures After([]) == IDLE
  {
  }

  /** So a cancel of one script can end its successor, and the end is not reported as a kill. */
  lemma LateKillHitsTheNextScript() returns (log: seq<Step>)
    ensures var r := After(log);
            && r.running == map[7 := 1] && |r.scripts| == 2 && r.scripts[1].live && r.scripts[1].reason == None
            && var end := Next(Next(Next(r, Fallback(7, 0)), WaitReturns(1)), PushFinished(1));
            !end.scripts[1].live && end.events == r.events + [Finished(7, 1, false, None)]
  {
    hide After, Next, Sound;
    log := Restart();
    RunIsSound(log);
    LateKillIsReportedExactly(After(log), 7, 0);
  }
}
