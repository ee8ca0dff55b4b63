/** Whole runs of the compliance loop: sync messages, capability changes and monitor looks in any order. */
module ComplianceRuns {
  import opened Prelude
  import opened ServerCaches
  import opened Compliance
  import opened PolicyHandlers

  datatype Agent = Agent(
    accounts: Cache<Account>,
    policies: Cache<Policy>,
    capabilities: map<string, bool>,
    pending: map<Signature, Pending>,
    idle: map<(int, int), Option<real>>,
    effects: seq<Effect>)

  const IDLE := Agent(map[], map[], map[], map[], map[], [])

  /** `wall` is the clock of reservations, `now` the monotonic clock; a look at a GPU only updates its idle streak. */
  datatype Step =
    | AccountSync(accounts: Sync<Account>)
    | PolicySync(policyServer: int, policies: seq<Named<Policy>>)
    | SetCapability(capability: string, on: bool)
    | See(process: Process, wall: int, now: real, killWorks: bool)
    | Look(gpu: Gpu, now: real)
    | Raise(violation: Violation, now: real, killWorks: bool)

  datatype Setup = Setup(server: int, callbacks: Callbacks)

  predicate CapableIn(capabilities: map<string, bool>) {
    KILL_CAPABILITY in capabilities && capabilities[KILL_CAPABILITY]
  }

  /** The violation a step hands to the dispatcher. */
  ghost function Handled(a: Agent, step: Step, setup: Setup): Option<Violation> {
    match step
    case See(process, wall, _, _) => Verdict(a.accounts, a.policies, setup.server, process, wall)
    case Raise(violation, _, _) => Some(violation)
    case _ => None
  }

  ghost function Reacted(a: Agent, v: Violation, now: real, killWorks: bool, setup: Setup): (seq<Effect>, Answer) {
    var policy := Find(a.policies, setup.server, v.key);
    var due := policy.Some? && GraceOver(a.pending, SignatureOf(v), policy.value.grace, now);
    Reaction(policy, due, CapableIn(a.capabilities), v, setup.callbacks, killWorks)
  }

  ghost function Dispatched(a: Agent, v: Violation, now: real, killWorks: bool, setup: Setup): Agent {
    var policy := Find(a.policies, setup.server, v.key);
    a.(pending := if policy.Some? && policy.value.enabled then Noted(a.pending, SignatureOf(v), policy.value.grace, now) else a.pending,
       effects := a.effects + Reacted(a, v, now, killWorks, setup).0)
  }

  ghost function Next(a: Agent, step: Step, setup: Setup): Agent {
    match step
    case AccountSync(sync) => a.(accounts := Applied(a.accounts, sync))
    case PolicySync(server, policies) => a.(policies := Applied(a.policies, Full(server, policies)))
    case SetCapability(key, on) => a.(capabilities := a.capabilities[key := on])
    case Look(g, now) =>
      a.(idle := a.idle[(setup.server, g.index) := Looked(IdleSince(a.idle, setup.server, g.index), g, now)])
    case See(_, _, now, killWorks) =>
      var v := Handled(a, step, setup);
      if v.Some? then Dispatched(a, v.value, now, killWorks, setup) else a
    case Raise(v, now, killWorks) => Dispatched(a, v, now, killWorks, setup)
  }

  ghost function After(log: seq<Step>, setup: Setup): Agent {
    if log == [] then IDLE else Next(After(log[..|log| - 1], setup), log[|log| - 1], setup)
  }

  // ----- what the log says -----

  /** The policy of the last sync for this server, whatever was pushed before it. */
  function PolicyAt(log: seq<Step>, server: int, key: string): Option<Policy> {
    if log == [] then None
    else
      var step := log[|log| - 1];
      if step.PolicySync? && step.policyServer == server then LastNaming(step.policies, key)
      else PolicyAt(log[..|log| - 1], server, key)
  }

  /** The kill capability was last switched on. */
  predicate CapableAt(log: seq<Step>) {
    log != [] &&
    var step := log[|log| - 1];
    if step.SetCapability? && step.capability == KILL_CAPABILITY then step.on else CapableAt(log[..|log| - 1])
  }

  function AccountSyncs(log: seq<Step>): seq<Sync<Account>> {
    if log == [] then []
    else
      var before := AccountSyncs(log[..|log| - 1]);
      if log[|log| - 1].AccountSync? then before + [log[|log| - 1].accounts] else before
  }

  /** The step starts or continues the grace period of the signature. */
  ghost predicate Marks(log: seq<Step>, step: Step, s: Signature, setup: Setup) {
    var v := Handled(After(log, setup), step, setup);
    && v.Some? && SignatureOf(v.value) == s
    && var policy := PolicyAt(log, setup.server, s.key);
    policy.Some? && policy.value.enabled && !Immediate(policy.value.grace)
  }

  /** When the signature was first noted, in the whole run. */
  ghost function FirstNoted(log: seq<Step>, s: Signature, setup: Setup): Option<real> {
    if log == [] then None
    else
      var before, step := log[..|log| - 1], log[|log| - 1];
      var first := FirstNoted(before, s, setup);
      if first.Some? then first
      else if (step.See? || step.Raise?) && Marks(before, step, s, setup) then Some(step.now)
      else None
  }

  /** What each kind of step may change. */
  lemma StepChanges(a: Agent, step: Step, setup: Setup)
    ensures var b := Next(a, step, setup);
            && b.accounts == (if step.AccountSync? then Applied(a.accounts, step.accounts) else a.accounts)
            && b.policies == (if step.PolicySync? then Applied(a.policies, Full(step.policyServer, step.policies)) else a.policies)
            && b.capabilities == (if step.SetCapability? then a.capabilities[step.capability := step.on] else a.capabilities)
            && (!step.See? && !step.Raise? ==> b.pending == a.pending && b.effects == a.effects)
            && (!step.Look? ==> b.idle == a.idle)
  {
    hide Verdict, Reaction, Applied, Noted;
  }

  lemma {:induction false} PoliciesFollowLog(log: seq<Step>, setup: Setup, server: int, key: string)
    ensures Find(After(log, setup).policies, server, key) == PolicyAt(log, server, key)
  {
    hide Next, Applied;
    if log != [] {
      var before, step := log[..|log| - 1], log[|log| - 1];
      PoliciesFollowLog(before, setup, server, key);
      StepChanges(After(before, setup), step, setup);
      if step.PolicySync? {
        AppliedMeans(After(before, setup).policies, Full(step.policyServer, step.policies), server, key);
      }
    }
  }

  lemma {:induction false} CapabilitiesFollowLog(log: seq<Step>, setup: Setup)
    ensures CapableIn(After(log, setup).capabilities) <==> CapableAt(log)
  {
    hide Next;
    if log != [] {
      CapabilitiesFollowLog(log[..|log| - 1], setup);
      StepChanges(After(log[..|log| - 1], setup), log[|log| - 1], setup);
    }
  }

  /** Every account lookup answers as the latest sync that speaks about the account. */
  lemma {:induction false} AccountsFollowLog(log: seq<Step>, setup: Setup, server: int, username: string)
    ensures Find(After(log, setup).accounts, server, username) == Latest(AccountSyncs(log), server, username)
  {
    AccountsAreSyncs(log, setup);
    CacheIsLatest(AccountSyncs(log), server, username);
  }

  lemma {:induction false} AccountsAreSyncs(log: seq<Step>, setup: Setup)
    ensures After(log, setup).accounts == AfterSyncs(AccountSyncs(log))
  {
    hide Next, Applied;
    if log != [] {
      var before, step := log[..|log| - 1], log[|log| - 1];
      AccountsAreSyncs(before, setup);
      StepChanges(After(before, setup), step, setup);
      if step.AccountSync? {
        var syncs := AccountSyncs(before);
        assert (syncs + [step.accounts])[..|syncs|] == syncs;
      }
    }
  }

  lemma {:induction false} PendingFollowsLog(log: seq<Step>, s: Signature, setup: Setup)
    ensures var pending := After(log, setup).pending;
            FirstNoted(log, s, setup) == if s in pending then Some(pending[s].first) else None
  {
    hide Next, Handled, After, FirstNoted;
    LastStep(log, s, setup);
    if log != [] {
      var before, step := log[..|log| - 1], log[|log| - 1];
      PendingFollowsLog(before, s, setup);
      PoliciesFollowLog(before, setup, setup.server, s.key);
      var a := After(before, setup);
      StepChanges(a, step, setup);
      if step.See? || step.Raise? {
        StepNotes(a, step, s, setup);
      }
    }
  }

  lemma LastStep(log: seq<Step>, s: Signature, setup: Setup)
    ensures log == [] ==> After(log, setup) == IDLE && FirstNoted(log, s, setup) == None
    ensures log != [] ==>
              var before, step := log[..|log| - 1], log[|log| - 1];
              var first := FirstNoted(before, s, setup);
              && After(log, setup) == Next(After(before, setup), step, setup)
              && FirstNoted(log, s, setup)
                 == if first.None? && (step.See? || step.Raise?) && Marks(before, step, s, setup) then Some(step.now) else first
  {
    hide Marks, Next;
  }

  lemma StepNotes(a: Agent, step: Step, s: Signature, setup: Setup)
    requires step.See? || step.Raise?
    ensures var v := Handled(a, step, setup);
            var policy := Find(a.policies, setup.server, s.key);
            var b := Next(a, step, setup);
            if v.Some? && SignatureOf(v.value) == s && policy.Some? && policy.value.enabled && !Immediate(policy.value.grace)
            then s in b.pending && b.pending[s].first == if s in a.pending then a.pending[s].first else step.now
            else (s in b.pending <==> s in a.pending) && (s in a.pending ==> b.pending[s].first == a.pending[s].first)
  {
    hide Verdict, Reaction;
  }

  // ----- automatic kills -----

  /** Everything that must be true of the past for a step to kill. */
  ghost predicate MustKill(log: seq<Step>, step: Step, pid: int, setup: Setup) {
    && setup.callbacks.kill
    && (step.See? || step.Raise?)
    && var handled := Handled(After(log, setup), step, setup);
    && handled.Some? && handled.value.pid == Some(pid) && (handled.value.key == PREEMPT || handled.value.key == SCRIPT_OVERRUN)
    && CapableAt(log)
    && var policy := PolicyAt(log, setup.server, handled.value.key);
    && policy.Some? && policy.value.enabled && policy.value.severity == AutoKill
    && (Immediate(policy.value.grace) ||
        var first := FirstNoted(log, SignatureOf(handled.value), setup);
        first.Some? && step.now - first.value >= policy.value.grace.value as real)
  }

  ghost function EffectsOf(log: seq<Step>, step: Step, setup: Setup): seq<Effect> {
    var a := After(log, setup);
    var v := Handled(a, step, setup);
    if (step.See? || step.Raise?) && v.Some? then Reacted(a, v.value, step.now, step.killWorks, setup).0 else []
  }

  /** In any run a step kills exactly when the history allows it. */
  lemma KillsFollowLog(log: seq<Step>, step: Step, pid: int, setup: Setup)
    ensures Kill(pid) in EffectsOf(log, step, setup) <==> MustKill(log, step, pid, setup)
  {
    var a := After(log, setup);
    var handled := Handled(a, step, setup);
    hide Verdict, Reaction, Applied, After, Handled, Next;
    if (step.See? || step.Raise?) && handled.Some? {
      var v := handled.value;
      PoliciesFollowLog(log, setup, setup.server, v.key);
      CapabilitiesFollowLog(log, setup);
      PendingFollowsLog(log, SignatureOf(v), setup);
      var policy := PolicyAt(log, setup.server, v.key);
      var due := policy.Some? && GraceOver(a.pending, SignatureOf(v), policy.value.grace, step.now);
      KillsExactly(policy, due, CapableIn(a.capabilities), v, setup.callbacks, step.killWorks, pid);
    }
  }

  /** The past lets the step's violation through: its policy is enabled, with no grace or one begun at least that long ago. */
  ghost predicate LetsThrough(log: seq<Step>, step: Step, v: Violation, setup: Setup)
    requires step.See? || step.Raise?
  {
    var policy := PolicyAt(log, setup.server, v.key);
    && policy.Some? && policy.value.enabled
    && (policy.value.grace == None || policy.value.grace == Some(0) ||
        var first := FirstNoted(log, SignatureOf(v), setup);
        first.Some? && step.now - first.value >= policy.value.grace.value as real)
  }

  /** In any run what a step tells whom follows from the last policy sync, the capability, and when the violation was first seen. */
  lemma EffectsFollowLog(log: seq<Step>, step: Step, setup: Setup)
    ensures var handled, effects := Handled(After(log, setup), step, setup), EffectsOf(log, step, setup);
      if (step.See? || step.Raise?) && handled.Some? && LetsThrough(log, step, handled.value, setup)
      then Heard(effects, PolicyAt(log, setup.server, handled.value.key).value, CapableAt(log), handled.value, setup.callbacks, step.killWorks)
      else effects == []
  {
    var a := After(log, setup);
    var handled := Handled(a, step, setup);
    hide Verdict, Reaction, Applied, After, Handled, Next, Heard;
    if (step.See? || step.Raise?) && handled.Some? {
      var v := handled.value;
      PoliciesFollowLog(log, setup, setup.server, v.key);
      CapabilitiesFollowLog(log, setup);
      PendingFollowsLog(log, SignatureOf(v), setup);
      var policy := PolicyAt(log, setup.server, v.key);
      var due := policy.Some? && GraceOver(a.pending, SignatureOf(v), policy.value.grace, step.now);
      ReactionIsHeard(policy, due, CapableIn(a.capabilities), v, setup.callbacks, step.killWorks);
    }
  }

  lemma EffectsGrow(log: seq<Step>, n: nat, setup: Setup)
    requires n < |log|
    ensures After(log[..n + 1], setup).effects == After(log[..n], setup).effects + EffectsOf(log[..n], log[n], setup)
  {
    hide Next, Handled, Reacted;
    assert log[..n + 1][..n] == log[..n];
    StepEffects(After(log[..n], setup), log[n], setup);
  }

  /** What a step adds to the effects: the reaction to the violation it hands over, if it hands over one. */
  lemma StepEffects(a: Agent, step: Step, setup: Setup)
    ensures var v := Handled(a, step, setup);
            Next(a, step, setup).effects ==
            a.effects + if (step.See? || step.Raise?) && v.Some? then Reacted(a, v.value, step.now, step.killWorks, setup).0 else []
  {
    hide Verdict, Reacted, Applied, Noted;
  }

  /** Every kill of a run was allowed by the history before some step of it. */
  lemma {:induction false} EveryKillIsAllowed(log: seq<Step>, n: nat, pid: int, setup: Setup)
    requires n <= |log| && Kill(pid) in After(log[..n], setup).effects
    ensures exists i :: 0 <= i < n && MustKill(log[..i], log[i], pid, setup)
    decreases n
  {
    hide MustKill, EffectsOf;
    if n > 0 {
      var before := log[..n - 1];
      EffectsGrow(log, n - 1, setup);
      hide After;
      if Kill(pid) in After(before, setup).effects {
        EveryKillIsAllowed(log, n - 1, pid, setup);
      } else {
        KillsFollowLog(before, log[n - 1], pid, setup);
      }
    }
  }

  /** The monitor itself only ever kills a true preemptor: its user is known, not entitled, and someone else is. */
  lemma MonitorKillsOnlyPreemptors(log: seq<Step>, step: Step, pid: int, setup: Setup)
    requires step.See? && Kill(pid) in EffectsOf(log, step, setup)
    ensures var (accounts, p) := (After(log, setup).accounts, step.process);
            && p.pid == pid
            && Linked(accounts, setup.server, p.username) != []
            && !Entitled(accounts[(setup.server, p.username)], p.gpu, step.wall)
            && OtherHolder(accounts, setup.server, p.username, p.gpu, step.wall)
  {
    var a := After(log, setup);
    KillsFollowLog(log, step, pid, setup);
    VerdictMeans(a.accounts, a.policies, setup.server, step.process, step.wall);
    hide Verdict, Reaction;
  }

  /** A kill under a positive grace comes at least that long after an earlier step noted the same violation. */
  lemma {:induction false} GraceIsGranted(log: seq<Step>, s: Signature, setup: Setup)
    requires FirstNoted(log, s, setup).Some?
    ensures exists j :: 0 <= j < |log| && (log[j].See? || log[j].Raise?) && Marks(log[..j], log[j], s, setup)
                        && Some(log[j].now) == FirstNoted(log, s, setup)
                        && FirstNoted(log[..j], s, setup) == None
  {
    hide Marks;
    var before := log[..|log| - 1];
    if FirstNoted(before, s, setup).Some? {
      GraceIsGranted(before, s, setup);
      var j :| 0 <= j < |before| && (before[j].See? || before[j].Raise?) && Marks(before[..j], before[j], s, setup)
               && Some(before[j].now) == FirstNoted(before, s, setup) && FirstNoted(before[..j], s, setup) == None;
      assert before[..j] == log[..j] && before[j] == log[j];
    } else {
      assert log[..|before|] == before;
    }
  }

  /** A grace period once started is never restarted, whatever is seen in between. */
  lemma {:induction false} GraceNeverRestarts(log: seq<Step>, more: seq<Step>, s: Signature, setup: Setup)
    requires FirstNoted(log, s, setup).Some?
    ensures FirstNoted(log + more, s, setup) == FirstNoted(log, s, setup)
  {
    hide Marks;
    if more == [] {
      assert log + more == log;
    } else {
      GraceNeverRestarts(log, more[..|more| - 1], s, setup);
      assert (log + more)[..|log + more| - 1] == log + more[..|more| - 1];
    }
  }

  /**
   * So persistence is not required: with an hour's grace a violation seen once, gone, and seen again
   * an hour later is killed at once.
   */
  lemma GapsDoNotResetGrace(v: Violation, gaps: seq<Step>, pid: int, setup: Setup)
    requires setup.callbacks.kill && v.pid == Some(pid) && v.key == PREEMPT
    requires forall k :: 0 <= k < |gaps| ==> gaps[k].See? || gaps[k].Look?
    ensures var start := [SetCapability(KILL_CAPABILITY, true),
                          PolicySync(setup.server, [Named(PREEMPT, Policy(true, AutoKill, None, Some(3600)))]),
                          Raise(v, 0.0, true)];
            Kill(pid) in EffectsOf(start + gaps, Raise(v, 3600.0, true), setup)
  {
    var policy := Policy(true, AutoKill, None, Some(3600));
    var start := [SetCapability(KILL_CAPABILITY, true), PolicySync(setup.server, [Named(PREEMPT, policy)]), Raise(v, 0.0, true)];
    assert start[..2][..1] == start[..1] && start[..1][..0] == [] && start[..3] == start;
    assert PolicyAt(start[..2], setup.server, PREEMPT) == Some(policy);
    assert PolicyAt(start, setup.server, PREEMPT) == Some(policy);
    assert CapableAt(start[..1]) && CapableAt(start[..2]) && CapableAt(start);
    var s := SignatureOf(v);
    assert Handled(After(start[..2], setup), start[2], setup) == Some(v);
    assert FirstNoted([], s, setup) == FirstNoted(start[..1], s, setup) == None;
    assert Marks(start[..2], start[2], s, setup);
    hide After, Marks;
    assert FirstNoted(start[..2], s, setup) == None;
    assert FirstNoted(start, s, setup) == Some(0.0);
    GraceNeverRestarts(start, gaps, s, setup);
    QuietSteps(start, gaps, setup);
    KillsFollowLog(start + gaps, Raise(v, 3600.0, true), pid, setup);
  }

  lemma {:induction false} QuietSteps(log: seq<Step>, gaps: seq<Step>, setup: Setup)
    requires forall k :: 0 <= k < |gaps| ==> gaps[k].See? || gaps[k].Look?
    ensures PolicyAt(log + gaps, setup.server, PREEMPT) == PolicyAt(log, setup.server, PREEMPT)
    ensures CapableAt(log + gaps) <==> CapableAt(log)
  {
    if gaps == [] {
      assert log + gaps == log;
    } else {
      QuietSteps(log, gaps[..|gaps| - 1], setup);
      assert (log + gaps)[..|log + gaps| - 1] == log + gaps[..|gaps| - 1];
    }
  }

  // ----- idle streaks -----

  predicate LooksAt(step: Step, gpu: int) {
    step.Look? && step.gpu.index == gpu
  }

  /** From position k on, every look at the GPU has found zero utilisation. */
  predicate IdleFrom(log: seq<Step>, gpu: int, k: nat) {
    forall j :: k <= j < |log| && LooksAt(log[j], gpu) ==> log[j].gpu.utilPercent == 0
  }

  /** Step i began the unbroken run of idle looks that still lasts. */
  predicate StreakStart(log: seq<Step>, gpu: int, i: nat)
    requires i < |log|
  {
    && LooksAt(log[i], gpu) && IdleFrom(log, gpu, i)
    && forall k :: 0 <= k < i && LooksAt(log[k], gpu) ==> !IdleFrom(log, gpu, k)
  }

  lemma StreakStep(log: seq<Step>, gpu: int, i: nat)
    requires i < |log| - 1
    ensures var step := log[|log| - 1];
            StreakStart(log, gpu, i)
            <==> StreakStart(log[..|log| - 1], gpu, i) && (LooksAt(step, gpu) ==> step.gpu.utilPercent == 0)
  {
    var before, step := log[..|log| - 1], log[|log| - 1];
    assert forall k: nat :: k < |before| ==>
        (IdleFrom(log, gpu, k) <==> IdleFrom(before, gpu, k) && (LooksAt(step, gpu) ==> step.gpu.utilPercent == 0)) by {
      forall k: nat | k < |before|
        ensures IdleFrom(log, gpu, k) <==> IdleFrom(before, gpu, k) && (LooksAt(step, gpu) ==> step.gpu.utilPercent == 0)
      {
        assert log[|before|] == step;
        assert forall j :: k <= j < |before| ==> before[j] == log[j];
      }
    }
    assert before[i] == log[i];
    assert forall k :: 0 <= k < i ==> before[k] == log[k];
  }

  /** The streak a GPU's state carries is the one the log shows, from its first look on. */
  lemma {:induction false} IdleFollowsLog(log: seq<Step>, gpu: int, setup: Setup)
    ensures var since := IdleSince(After(log, setup).idle, setup.server, gpu);
            && (since.Some? ==> exists i :: 0 <= i < |log| && StreakStart(log, gpu, i) && log[i].now == since.value)
            && (since.None? ==> forall i :: 0 <= i < |log| ==> !StreakStart(log, gpu, i))
  {
    hide Next, StreakStart;
    if log != [] {
      var before, step := log[..|log| - 1], log[|log| - 1];
      IdleFollowsLog(before, gpu, setup);
      StepChanges(After(before, setup), step, setup);
      var was := IdleSince(After(before, setup).idle, setup.server, gpu);
      LookChanges(After(before, setup), step, gpu, setup);
      forall i: nat | i < |before|
        ensures StreakStart(log, gpu, i) <==> StreakStart(before, gpu, i) && (LooksAt(step, gpu) ==> step.gpu.utilPercent == 0)
      {
        StreakStep(log, gpu, i);
      }
      LastStarts(log, gpu);
    }
  }

  lemma LookChanges(a: Agent, step: Step, gpu: int, setup: Setup)
    ensures IdleSince(Next(a, step, setup).idle, setup.server, gpu)
            == if LooksAt(step, gpu) then Looked(IdleSince(a.idle, setup.server, gpu), step.gpu, step.now)
               else IdleSince(a.idle, setup.server, gpu)
  {
    hide Verdict, Reaction, Applied, Noted;
  }

  lemma LastStarts(log: seq<Step>, gpu: int)
    requires log != []
    ensures var before, step := log[..|log| - 1], log[|log| - 1];
            StreakStart(log, gpu, |before|)
            <==> LooksAt(step, gpu) && step.gpu.utilPercent == 0 && forall i :: 0 <= i < |before| ==> !StreakStart(before, gpu, i)
  {
    var before, step := log[..|log| - 1], log[|log| - 1];
    if i :| 0 <= i < |before| && StreakStart(before, gpu, i) {
      assert LooksAt(log[i], gpu);
      assert LooksAt(step, gpu) && step.gpu.utilPercent == 0 ==> IdleFrom(log, gpu, i);
    } else {
      forall k: nat | k < |before| && LooksAt(log[k], gpu)
        ensures !IdleFrom(log, gpu, k)
      {
        if IdleFrom(before, gpu, k) {
          SomeStart(before, gpu, k);
        } else {
          var j :| k <= j < |before| && LooksAt(before[j], gpu) && before[j].gpu.utilPercent != 0;
          assert log[j] == before[j];
        }
      }
    }
  }

  lemma SomeStart(log: seq<Step>, gpu: int, k: nat)
    requires k < |log| && LooksAt(log[k], gpu) && IdleFrom(log, gpu, k)
    ensures exists i :: 0 <= i < |log| && StreakStart(log, gpu, i)
    decreases k
  {
    if j :| 0 <= j < k && LooksAt(log[j], gpu) && IdleFrom(log, gpu, j) {
      SomeStart(log, gpu, j);
    } else {
      assert StreakStart(log, gpu, k);
    }
  }

  /** A setting as the last policy sync of the log has it. */
  function SettingAt(log: seq<Step>, server: int, key: string, name: string, default: int): int {
    match PolicyAt(log, server, key)
    case None => default
    case Some(policy) => policy.Setting(name, default)
  }

  lemma SettingFollowsLog(log: seq<Step>, setup: Setup, server: int, key: string, name: string, default: int)
    ensures SettingOf(After(log, setup).policies, server, key, name, default) == SettingAt(log, server, key, name, default)
  {
    hide After, PolicyAt;
    PoliciesFollowLog(log, setup, server, key);
  }

  lemma LookKeepsPolicies(log: seq<Step>, g: Gpu, now: real, setup: Setup)
    ensures After(log + [Look(g, now)], setup).policies == After(log, setup).policies
  {
    hide Next;
    assert (log + [Look(g, now)])[..|log|] == log;
    StepChanges(After(log, setup), Look(g, now), setup);
  }

  /** The report names the idle time in whole seconds, the memory, and the two settings. */
  predicate ReportsHang(v: Violation, g: Gpu, log: seq<Step>, idle: real, setup: Setup) {
    v.payload == map["util_zero_for_s" := idle.Floor, "memory_used_mb" := g.memoryMb,
                     "mem_floor_mb" := SettingAt(log, setup.server, GPU_HANG, "mem_floor_mb", 1024),
                     "threshold_value_s" := SettingAt(log, setup.server, GPU_HANG, "util_zero_seconds", 600)]
  }

  /**
   * A look reports a hang exactly when memory is at the floor and the unbroken idle run of the log began at least the
   * threshold ago, floor and threshold being those of the last policy sync.
   */
  lemma HangExactly(log: seq<Step>, g: Gpu, now: real, setup: Setup)
    ensures var all := log + [Look(g, now)];
            var a := After(all, setup);
            var found := GpuFindings(a.policies, setup.server, g, IdleSince(a.idle, setup.server, g.index), now);
            (exists v :: v in found && v.key == GPU_HANG)
            <==> && g.memoryMb >= SettingAt(log, setup.server, GPU_HANG, "mem_floor_mb", 1024)
                 && exists i :: 0 <= i < |all| && StreakStart(all, g.index, i)
                                && now - all[i].now >= SettingAt(log, setup.server, GPU_HANG, "util_zero_seconds", 600) as real
                                && forall v :: v in found && v.key == GPU_HANG ==> ReportsHang(v, g, log, now - all[i].now, setup)
  {
    hide After, StreakStart, SettingOf, SettingAt;
    var all := log + [Look(g, now)];
    var a := After(all, setup);
    var since := IdleSince(a.idle, setup.server, g.index);
    var found := GpuFindings(a.policies, setup.server, g, since, now);
    IdleFollowsLog(all, g.index, setup);
    forall i, j | 0 <= i < |all| && 0 <= j < |all| && StreakStart(all, g.index, i) && StreakStart(all, g.index, j)
      ensures i == j
    {
      OneStart(all, g.index, i, j);
    }
    LookKeepsPolicies(log, g, now, setup);
    SettingFollowsLog(log, setup, setup.server, GPU_HANG, "util_zero_seconds", 600);
    SettingFollowsLog(log, setup, setup.server, GPU_HANG, "mem_floor_mb", 1024);
    var seconds := SettingAt(log, setup.server, GPU_HANG, "util_zero_seconds", 600);
    var floor := SettingAt(log, setup.server, GPU_HANG, "mem_floor_mb", 1024);
    if since.Some? && g.memoryMb >= floor && now - since.value >= seconds as real {
      assert found[0].key == GPU_HANG;
    }
  }

  /**
   * A look reports heat exactly when the GPU is hotter than the limit of the last policy sync, with both in the report,
   * and it reports nothing but heat and hangs.
   */
  lemma HeatExactly(log: seq<Step>, g: Gpu, now: real, setup: Setup)
    ensures var a := After(log + [Look(g, now)], setup);
            var found := GpuFindings(a.policies, setup.server, g, IdleSince(a.idle, setup.server, g.index), now);
            var limit := SettingAt(log, setup.server, GPU_TEMP, "value", 85);
            && (forall v :: v in found ==> v.server == setup.server && v.gpu == g.index && v.pid == None && (v.key == GPU_HANG || v.key == GPU_TEMP))
            && (forall i, j :: 0 <= i < j < |found| ==> found[i].key != found[j].key)
            && (forall v :: v in found && v.key == GPU_TEMP ==> v.payload == map["temperature_c" := g.celsius, "threshold_c" := limit])
            && ((exists v :: v in found && v.key == GPU_TEMP) <==> g.celsius > limit)
  {
    hide After, SettingOf, SettingAt;
    LookKeepsPolicies(log, g, now, setup);
    SettingFollowsLog(log, setup, setup.server, GPU_TEMP, "value", 85);
    var a := After(log + [Look(g, now)], setup);
    var found := GpuFindings(a.policies, setup.server, g, IdleSince(a.idle, setup.server, g.index), now);
    if g.celsius > SettingAt(log, setup.server, GPU_TEMP, "value", 85) {
      assert found[|found| - 1].key == GPU_TEMP;
    }
  }

  lemma OneStart(log: seq<Step>, gpu: int, i: nat, j: nat)
    requires i < |log| && j < |log| && StreakStart(log, gpu, i) && StreakStart(log, gpu, j)
    ensures i == j
  {
  }
}
