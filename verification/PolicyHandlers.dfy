/** What the agent does about a violation: the policy's severity, the grace period and the guarded kill. */
module PolicyHandlers {
  import opened Prelude
  import opened ServerCaches
  import opened Compliance

  const KILL_CAPABILITY := "gpu.kill_process"

  predicate KillAllowed(key: string) {
    key == PREEMPT || key == SCRIPT_OVERRUN
  }

  // ----- the grace period -----

  datatype Signature = Signature(key: string, server: int, gpu: int, username: Option<string>, pid: Option<int>)

  function SignatureOf(v: Violation): Signature {
    Signature(v.key, v.server, v.gpu, v.username, v.pid)
  }

  datatype Pending = Pending(first: real, last: real)

  predicate Immediate(grace: Option<int>) {
    grace == None || grace == Some(0)
  }

  function Noted(pending: map<Signature, Pending>, s: Signature, grace: Option<int>, now: real): map<Signature, Pending> {
    if Immediate(grace) then pending
    else pending[s := Pending(if s in pending then pending[s].first else now, now)]
  }

  predicate GraceOver(pending: map<Signature, Pending>, s: Signature, grace: Option<int>, now: real) {
    Immediate(grace) || (s in pending && now - pending[s].first >= grace.value as real)
  }

  /** Noting a violation under a grace dates it from the first time, marks this one as the last, and leaves all others alone. */
  lemma NotedMeans(pending: map<Signature, Pending>, s: Signature, grace: Option<int>, now: real, other: Signature)
    ensures var noted := Noted(pending, s, grace, now);
      && (grace == None || grace == Some(0) ==> noted == pending)
      && (grace.Some? && grace.value != 0 ==>
            s in noted && noted[s] == Pending(if s in pending then pending[s].first else now, now))
      && (other != s ==> (other in noted <==> other in pending) && (other in pending ==> noted[other] == pending[other]))
  {
  }

  class GraceTracker {
    var pending: map<Signature, Pending>

    constructor ()
      ensures pending == map[]
    {
      pending := map[];
    }

    method Record(s: Signature, grace: Option<int>, now: real) returns (due: bool)
      modifies this
      ensures pending == Noted(old(pending), s, grace, now)
      ensures due == GraceOver(old(pending), s, grace, now)
    {
      if grace == None || grace == Some(0) {
        return true;
      }
      if s !in pending {
        pending := pending[s := Pending(now, now)];
        return false;
      }
      var first := pending[s].first;
      pending := pending[s := Pending(first, now)];
      due := now - first >= grace.value as real;
    }

    method Clear(s: Signature)
      modifies this
      ensures pending == old(pending) - {s}
    {
      pending := pending - {s};
    }
  }

  // ----- reacting to one violation -----

  datatype Callbacks = Callbacks(notify: bool, kill: bool, report: bool)

  datatype Action = Logged | Notified | Warned | Killed | KillFailed

  datatype Effect =
    | Kill(target: int)
    | Push(key: string, pid: Option<int>, severity: Severity, killed: Option<bool>)
    | Report(key: string, pid: Option<int>, severity: Severity, action: Action, downgradedFrom: Option<Severity>)

  datatype Answer = NotActed | Deferred | Acted(severity: Severity)

  /** An automatic kill is honoured only in scope and with the capability on. */
  predicate MayKill(key: string, capable: bool) {
    KillAllowed(key) && capable
  }

  function Pushes(v: Violation, severity: Severity, killed: Option<bool>, callbacks: Callbacks): seq<Effect> {
    if callbacks.notify then [Push(v.key, v.pid, severity, killed)] else []
  }

  function Routed(severity: Severity, v: Violation, callbacks: Callbacks, killWorks: bool): (seq<Effect>, Action) {
    match severity
    case LogOnly => ([], Logged)
    case Notify => (Pushes(v, severity, None, callbacks), Notified)
    case Warn => (Pushes(v, severity, None, callbacks), Warned)
    case AutoKill =>
      var tried := v.pid.Some? && callbacks.kill;
      var killed := tried && killWorks;
      ((if tried then [Kill(v.pid.value)] else []) + Pushes(v, severity, Some(killed), callbacks),
       if killed then Killed else KillFailed)
    case Unknown(_) => ([], Logged)
  }

  /** The severity that is applied: an automatic kill that is not honoured becomes a warning. */
  function Effective(policy: Policy, key: string, capable: bool): Severity {
    if policy.severity == AutoKill && !MayKill(key, capable) then Warn else policy.severity
  }

  function Reaction(policy: Option<Policy>, due: bool, capable: bool, v: Violation, callbacks: Callbacks, killWorks: bool)
    : (r: (seq<Effect>, Answer))
  {
    if policy.None? || !policy.value.enabled then ([], NotActed)
    else if !due then ([], Deferred)
    else
      var severity := Effective(policy.value, v.key, capable);
      var (effects, action) := Routed(severity, v, callbacks, killWorks);
      var from := if severity != policy.value.severity then Some(AutoKill) else None;
      (effects + if callbacks.report then [Report(v.key, v.pid, severity, action, from)] else [], Acted(severity))
  }

  /** The module-level policy cache. */
  class PolicyCache {
    var policies: Cache<Policy>
    var etags: map<int, string>

    constructor ()
      ensures policies == map[] && etags == map[]
    {
      policies, etags := map[], map[];
    }

    method ApplySync(server: int, entries: seq<Named<Policy>>, etag: string) returns (count: nat)
      modifies this
      ensures policies == Applied(old(policies), Full(server, entries))
      ensures etags == old(etags)[server := etag]
      ensures count == |set key | key in policies && key.0 == server|
    {
      policies := DropServer(policies, server);
      policies := WriteEntries(policies, server, entries);
      etags := etags[server := etag];
      count := |set key | key in policies && key.0 == server|;
    }
  }

  /** The module-level reverse-lookup cache. */
  class ReverseCache {
    var accounts: Cache<Account>
    var lastFull: real

    constructor ()
      ensures accounts == map[]
    {
      accounts, lastFull := map[], 0.0;
    }

    method ApplyFullSnapshot(server: int, entries: seq<Named<Account>>, now: real) returns (count: nat)
      modifies this
      ensures accounts == Applied(old(accounts), Full(server, entries))
      ensures lastFull == now && count == |set key | key in accounts && key.0 == server|
    {
      accounts := DropServer(accounts, server);
      accounts := WriteEntries(accounts, server, entries);
      lastFull := now;
      count := |set key | key in accounts && key.0 == server|;
    }

    method ApplyIncremental(server: int, entries: seq<Named<Account>>, removed: seq<string>) returns (count: nat)
      modifies this
      ensures accounts == Applied(old(accounts), Incremental(server, entries, removed))
      ensures lastFull == old(lastFull) && count == |set key | key in accounts && key.0 == server|
    {
      accounts := WriteEntries(accounts, server, entries);
      accounts := RemoveNames(accounts, server, removed);
      count := |set key | key in accounts && key.0 == server|;
    }
  }

  class PolicyDispatcher {
    const server: int
    const callbacks: Callbacks
    const policies: PolicyCache
    const grace: GraceTracker
    var capabilities: map<string, bool>
    var effects: seq<Effect>

    constructor (server: int, callbacks: Callbacks, policies: PolicyCache, grace: GraceTracker)
      ensures this.server == server && this.callbacks == callbacks && this.policies == policies && this.grace == grace
      ensures capabilities == map[] && effects == []
    {
      this.server, this.callbacks, this.policies, this.grace := server, callbacks, policies, grace;
      capabilities, effects := map[], [];
    }

    predicate Capable()
      reads this
    {
      KILL_CAPABILITY in capabilities && capabilities[KILL_CAPABILITY]
    }

    method Dispatch(v: Violation, now: real, killWorks: bool) returns (answer: Answer)
      modifies this`effects, grace
      ensures var policy := Find(policies.policies, server, v.key);
              var due := policy.Some? && GraceOver(old(grace.pending), SignatureOf(v), policy.value.grace, now);
              var reaction := Reaction(policy, due, Capable(), v, callbacks, killWorks);
              && answer == reaction.1 && effects == old(effects) + reaction.0
              && grace.pending == if policy.Some? && policy.value.enabled
                                  then Noted(old(grace.pending), SignatureOf(v), policy.value.grace, now)
                                  else old(grace.pending)
    {
      var policy := Find(policies.policies, server, v.key);
      if policy.None? || !policy.value.enabled {
        return NotActed;
      }
      var due := grace.Record(SignatureOf(v), policy.value.grace, now);
      if !due {
        return Deferred;
      }
      var effective := policy.value.severity;
      var downgradedFrom: Option<Severity> := None;
      if effective == AutoKill && !KillAllowed(v.key) {
        effective := Warn;
        downgradedFrom := Some(AutoKill);
      }
      if effective == AutoKill && !Capable() {
        effective := Warn;
        downgradedFrom := Some(AutoKill);
      }
      var action := Route(effective, v, killWorks);
      if callbacks.report {
        effects := effects + [Report(v.key, v.pid, effective, action, downgradedFrom)];
      }
      answer := Acted(effective);
    }

    method Route(severity: Severity, v: Violation, killWorks: bool) returns (action: Action)
      modifies this`effects
      ensures action == Routed(severity, v, callbacks, killWorks).1
      ensures effects == old(effects) + Routed(severity, v, callbacks, killWorks).0
    {
      match severity {
        case LogOnly =>
          action := Logged;
        case Notify =>
          effects := effects + Pushes(v, severity, None, callbacks);
          action := Notified;
        case Warn =>
          effects := effects + Pushes(v, severity, None, callbacks);
          action := Warned;
        case AutoKill =>
          var killed := false;
          if v.pid.Some? && callbacks.kill {
            effects := effects + [Kill(v.pid.value)];
            killed := killWorks;
          }
          effects := effects + Pushes(v, severity, Some(killed), callbacks);
          action := if killed then Killed else KillFailed;
        case Unknown(_) =>
          action := Logged;
      }
    }
  }

  /** The kill is attempted exactly under an enabled automatic policy in scope, capable, past its grace, for a known pid. */
  lemma KillsExactly(policy: Option<Policy>, due: bool, capable: bool, v: Violation, callbacks: Callbacks, killWorks: bool, pid: int)
    ensures Kill(pid) in Reaction(policy, due, capable, v, callbacks, killWorks).0
            <==> && policy.Some? && policy.value.enabled && policy.value.severity == AutoKill
                 && due && (v.key == PREEMPT || v.key == SCRIPT_OVERRUN) && capable && v.pid == Some(pid) && callbacks.kill
  {
  }

  /** The policy asks for a kill that is out of scope or not permitted. */
  predicate Downgraded(policy: Policy, key: string, capable: bool) {
    policy.severity == AutoKill && !((key == PREEMPT || key == SCRIPT_OVERRUN) && capable)
  }

  /** Who hears of a violation whose policy is enabled and whose grace is over, in this order, and what each is told. */
  predicate Heard(effects: seq<Effect>, policy: Policy, capable: bool, v: Violation, callbacks: Callbacks, killWorks: bool) {
    var downgraded := Downgraded(policy, v.key, capable);
    var kills := policy.severity == AutoKill && !downgraded;
    var warns := policy.severity == Warn || downgraded;
    var shown := if downgraded then Warn else policy.severity;
    var aimed := kills && v.pid.Some? && callbacks.kill;
    var killed := aimed && killWorks;
    var action := if kills then (if killed then Killed else KillFailed) else if warns then Warned
                  else if policy.severity == Notify then Notified else Logged;
    effects == (if aimed then [Kill(v.pid.value)] else [])
             + (if (kills || warns || policy.severity == Notify) && callbacks.notify
                then [Push(v.key, v.pid, shown, if kills then Some(killed) else None)] else [])
             + (if callbacks.report
                then [Report(v.key, v.pid, shown, action, if downgraded then Some(AutoKill) else None)] else [])
  }

  /**
   An enabled policy past its grace kills, notifies and reports just as its severity, its scope and the capability say;
   any other policy, or none, does nothing.
   */
  lemma ReactionIsHeard(policy: Option<Policy>, due: bool, capable: bool, v: Violation, callbacks: Callbacks, killWorks: bool)
    ensures var effects := Reaction(policy, due, capable, v, callbacks, killWorks).0;
      if policy.Some? && policy.value.enabled && due then Heard(effects, policy.value, capable, v, callbacks, killWorks)
      else effects == []
  {
  }

  /** Routing reports nothing, says it killed exactly when an attempted kill worked, and warns by a warning. */
  lemma RoutedMeans(severity: Severity, v: Violation, callbacks: Callbacks, killWorks: bool)
    ensures var (sent, action) := Routed(severity, v, callbacks, killWorks);
            && (forall k :: 0 <= k < |sent| ==> !sent[k].Report?)
            && (action == Killed <==> killWorks && exists pid :: Kill(pid) in sent)
            && (severity == Warn ==> action == Warned)
  {
    var (sent, action) := Routed(severity, v, callbacks, killWorks);
    if severity == AutoKill && v.pid.Some? && callbacks.kill {
      assert sent[0] == Kill(v.pid.value);
    } else {
      assert forall k :: 0 <= k < |sent| ==> sent[k].Push?;
    }
  }

  /** The report names a downgrade exactly when one occurred, and then shows a warning; it shows a kill only for a kill that worked. */
  lemma ReportsDowngradeExactly(policy: Option<Policy>, due: bool, capable: bool, v: Violation, callbacks: Callbacks, killWorks: bool)
    requires policy.Some? && policy.value.enabled && due && callbacks.report
    ensures var (effects, answer) := Reaction(policy, due, capable, v, callbacks, killWorks);
            && effects != [] && effects[|effects| - 1].Report?
            && (forall k :: 0 <= k < |effects| - 1 ==> !effects[k].Report?)
            && var report := effects[|effects| - 1];
            && answer == Acted(report.severity) && report.key == v.key && report.pid == v.pid
            && (report.downgradedFrom.Some? <==> policy.value.severity == AutoKill && !(KillAllowed(v.key) && capable))
            && (report.downgradedFrom.Some? ==> report.downgradedFrom == Some(AutoKill) && report.severity == Warn && report.action == Warned)
            && (report.downgradedFrom.None? ==> report.severity == policy.value.severity)
            && (report.action == Killed <==> killWorks && exists pid :: Kill(pid) in effects)
  {
    hide Routed;
    var severity := Effective(policy.value, v.key, capable);
    RoutedMeans(severity, v, callbacks, killWorks);
    var (sent, action) := Routed(severity, v, callbacks, killWorks);
    var (effects, _) := Reaction(policy, due, capable, v, callbacks, killWorks);
    var report := effects[|effects| - 1];
    assert effects == sent + [report];
    hide Reaction;
    assert forall pid :: Kill(pid) in effects <==> Kill(pid) in sent;
  }
}
