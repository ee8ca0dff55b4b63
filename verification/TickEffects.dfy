/** What one tick does to each row, decided by the row, its own audit rows and the moment alone. */
module TickEffects {
  import opened Prelude
  import opened Reservations
  import opened ReservationService
  import opened Scheduler
  import opened Protocol
  import opened RowHistory

  const STUCK: int := 60 * SECOND

  /** How often a send for the row was audited as failed, and whether a started event was. */
  datatype Story = Story(failures: nat, started: bool)

  function StoryOf(audit: seq<Audit>, id: nat): Story {
    Story(multiset(audit)[DispatchAttemptFailed(id)], LifecycleStarted(id) in audit)
  }

  /** What is to become of a row, and whether its script is asked for. */
  datatype Fate = Fate(row: Row, asked: bool)

  /** Due to begin: from then on the reservation is open. */
  function Opened(r: Row, now: int): Row {
    if r.status == Scheduled && r.startAt <= now then r.(status := Active) else r
  }

  predicate ScriptWentWrong(r: Row) {
    r.scriptStatus == Some(ScriptFailed) || r.scriptStatus == Some(ScriptKilled)
  }

  function Closed(r: Row, now: int): Row {
    if r.status == Active && r.endAt <= now then r.(status := if ScriptWentWrong(r) then Failed else Completed) else r
  }

  predicate ScriptIsDue(r: Row, m: Moment) {
    r.status == Active && r.script.Some? && r.scriptStatus.None? && r.scriptAt.Some? && r.scriptAt.value <= m.now && r.linkId in m.links
  }

  predicate DispatchIsStuck(r: Row, m: Moment) {
    r.status == Active && r.scriptStatus == Some(ScriptRunning) && r.dispatchStartedAt.Some? && m.now - r.dispatchStartedAt.value > STUCK
  }

  /** An open row whose window runs: its script asked for when due, and a stuck request settled in one of three ways. */
  function Served(r: Row, story: Story, m: Moment): Fate {
    if ScriptIsDue(r, m) then Fate(r.(scriptStatus := Some(ScriptRunning), dispatchStartedAt := Some(m.now)), true)
    else if !DispatchIsStuck(r, m) then Fate(r, false)
    else if story.started then Fate(r.(dispatchStartedAt := None), false)
    else if story.failures >= 3 then Fate(r.(status := Failed), false)
    else if r.linkId in m.links then Fate(r.(dispatchStartedAt := Some(m.now)), true)
    else Fate(r, false)
  }

  /** A row's fate at a tick. A row on a server that is gone is left alone. */
  function Ticked(r: Row, story: Story, m: Moment): Fate {
    if r.serverId !in m.servers then Fate(r, false) else Served(Closed(Opened(r, m.now), m.now), story, m)
  }

  // ------------------------------------------------------------------------------ one visit

  /** One phase's part in it. */
  function PhaseFate(phase: Phase, r: Row, story: Story, m: Moment): Fate {
    if r.serverId !in m.servers then Fate(r, false)
    else
      match phase
      case Promote => Fate(Opened(r, m.now), false)
      case Close => Fate(Closed(r, m.now), false)
      case Dispatch => if ScriptIsDue(r, m) then Served(r, story, m) else Fate(r, false)
      case Watch => if ScriptIsDue(r, m) then Fate(r, false) else Served(r, story, m)
  }

  lemma {:induction false} FailuresCounted(audit: seq<Audit>, id: nat)
    ensures FailureCount(audit, id) == multiset(audit)[DispatchAttemptFailed(id)]
  {
    if audit != [] {
      FailuresCounted(audit[..|audit| - 1], id);
      assert audit == audit[..|audit| - 1] + [audit[|audit| - 1]];
    }
  }

  /** Row, requests and story of one reservation from one store to the next. */
  ghost predicate Goes(s: Store, t: Store, id: nat, fate: Fate, now: int) {
    && id < |s.rows| == |t.rows| && t.rows[id] == fate.row
    && SendTimes(t.sent, id) == SendTimes(s.sent, id) + (if fate.asked then [now] else [])
    && StoryOf(t.audit, id) == StoryOf(s.audit, id)
  }

  lemma StoryPush(audit: seq<Audit>, a: Audit, id: nat)
    requires !a.DispatchAttemptFailed? && !a.LifecycleStarted?
    ensures StoryOf(audit + [a], id) == StoryOf(audit, id)
  {
  }

  lemma VisitOther(phase: Phase, s: Store, v: nat, m: Moment, id: nat)
    requires id < |s.rows| && v != id
    ensures Goes(s, Visit(phase, s, v, m), id, Fate(s.rows[id], false), m.now)
  {
    hide FailureCount, StartedSeen, SendTimes, StoryOf;
    var t := Visit(phase, s, v, m);
    if t.audit != s.audit {
      assert t.audit == s.audit + [t.audit[|s.audit|]];
      StoryPush(s.audit, t.audit[|s.audit|], id);
    }
    if t.sent != s.sent {
      SendPush(s.sent, Execute(v, m.now), id);
    }
  }

  lemma WatchOwn(s: Store, m: Moment, id: nat)
    requires id < |s.rows| && Visited(Watch, s, id, m)
    ensures Goes(s, Visit(Watch, s, id, m), id, PhaseFate(Watch, s.rows[id], StoryOf(s.audit, id), m), m.now)
  {
    var failures := FailureCount(s.audit, id);
    FailuresCounted(s.audit, id);
    hide FailureCount, SendTimes;
    assert StoryOf(s.audit, id) == Story(failures, StartedSeen(s.audit, id));
    StoryPush(s.audit, Transition(id, Active, Failed), id);
    StoryPush(s.audit, DispatchRetry(id, failures + 1, m.now), id);
    SendPush(s.sent, Execute(id, m.now), id);
    hide StoryOf, StartedSeen;
  }

  lemma VisitOwn(phase: Phase, s: Store, m: Moment, id: nat)
    requires id < |s.rows|
    ensures Goes(s, Visit(phase, s, id, m), id, PhaseFate(phase, s.rows[id], StoryOf(s.audit, id), m), m.now)
  {
    hide FailureCount, StartedSeen, SendTimes, StoryOf;
    if phase == Watch && Visited(Watch, s, id, m) {
      WatchOwn(s, m, id);
    } else {
      var t := Visit(phase, s, id, m);
      if t.audit != s.audit {
        assert t.audit == s.audit + [t.audit[|s.audit|]];
        StoryPush(s.audit, t.audit[|s.audit|], id);
      }
      if t.sent != s.sent {
        SendPush(s.sent, Execute(id, m.now), id);
      }
    }
  }

  lemma FateIsFinal(phase: Phase, r: Row, story: Story, m: Moment)
    ensures PhaseFate(phase, PhaseFate(phase, r, story, m).row, story, m) == Fate(PhaseFate(phase, r, story, m).row, false)
  {
  }

  /** However often a phase visits the row, it acts on it once. */
  lemma {:induction false} PhaseActs(phase: Phase, s: Store, order: seq<nat>, m: Moment, id: nat)
    requires id < |s.rows|
    ensures Goes(s, RunPhase(phase, s, order, m), id,
                 if id in order then PhaseFate(phase, s.rows[id], StoryOf(s.audit, id), m) else Fate(s.rows[id], false), m.now)
  {
    hide SendTimes, StoryOf, PhaseFate, Visit;
    if order != [] {
      var n := |order| - 1;
      var before := RunPhase(phase, s, order[..n], m);
      PhaseActs(phase, s, order[..n], m, id);
      assert order == order[..n] + [order[n]];
      if order[n] == id {
        VisitOwn(phase, before, m, id);
        FateIsFinal(phase, s.rows[id], StoryOf(s.audit, id), m);
      } else {
        VisitOther(phase, before, order[n], m, id);
      }
    }
  }

  lemma PhasesMakeFate(r: Row, story: Story, m: Moment)
    ensures var closed := PhaseFate(Close, PhaseFate(Promote, r, story, m).row, story, m).row;
      var dispatched := PhaseFate(Dispatch, closed, story, m);
      var watched := PhaseFate(Watch, dispatched.row, story, m);
      Ticked(r, story, m) == Fate(watched.row, dispatched.asked || watched.asked) && !(dispatched.asked && watched.asked)
  {
  }

  /**
   A tick does to every row just what that row, its own story and the moment decide, in whatever orders the four
   queries list the table, and asks for its script exactly when that says so.
   */
  lemma TickDecidesEachRow(s: Store, o: Orders, m: Moment, id: nat)
    requires id < |s.rows| && OrdersCover(o, |s.rows|)
    ensures var t, fate := Tick(s, o, m), Ticked(s.rows[id], StoryOf(s.audit, id), m);
      && |t.rows| == |s.rows| && t.rows[id] == fate.row
      && SendTimes(t.sent, id) == SendTimes(s.sent, id) + (if fate.asked then [m.now] else [])
      && StoryOf(t.audit, id) == StoryOf(s.audit, id)
  {
    var story := StoryOf(s.audit, id);
    assert id in o.promote && id in o.close && id in o.dispatch && id in o.watch;
    PhasesMakeFate(s.rows[id], story, m);
    hide RunPhase, SendTimes, StoryOf, PhaseFate, Ticked, OrdersCover;
    var s1 := RunPhase(Promote, s, o.promote, m);
    PhaseActs(Promote, s, o.promote, m, id);
    var s2 := RunPhase(Close, s1, o.close, m);
    PhaseActs(Close, s1, o.close, m, id);
    var s3 := RunPhase(Dispatch, s2, o.dispatch, m);
    PhaseActs(Dispatch, s2, o.dispatch, m, id);
    PhaseActs(Watch, s3, o.watch, m, id);
    PromoteAndCloseAskNothing(s.rows[id], s1.rows[id], story, m);
  }

  lemma PromoteAndCloseAskNothing(r: Row, q: Row, story: Story, m: Moment)
    ensures !PhaseFate(Promote, r, story, m).asked && !PhaseFate(Close, q, story, m).asked
  {
  }

  // ------------------------------------------------------------------------ the cases apart

  /** A script that is due is asked for by the tick, once, and marked. */
  lemma DueScriptIsAskedFor(s: Store, o: Orders, m: Moment, id: nat)
    requires id < |s.rows| && OrdersCover(o, |s.rows|) && s.rows[id].serverId in m.servers
    requires var r := s.rows[id];
      && (r.status == Active || (r.status == Scheduled && r.startAt <= m.now)) && m.now < r.endAt
      && r.script.Some? && r.scriptStatus.None? && r.scriptAt.Some? && r.scriptAt.value <= m.now && r.linkId in m.links
    ensures var t := Tick(s, o, m);
      && |t.rows| == |s.rows| && t.rows[id].status == Active
      && t.rows[id].scriptStatus == Some(ScriptRunning) && t.rows[id].dispatchStartedAt == Some(m.now)
      && SendTimes(t.sent, id) == SendTimes(s.sent, id) + [m.now]
  {
    hide Tick, SendTimes, OrdersCover, StoryOf;
    TickDecidesEachRow(s, o, m, id);
  }

  /** What the watchdog makes of a request that is a minute old: it believes the audit, gives up, or asks again. */
  lemma WatchdogActs(s: Store, o: Orders, m: Moment, id: nat)
    requires id < |s.rows| && OrdersCover(o, |s.rows|) && s.rows[id].serverId in m.servers
    requires var r := s.rows[id];
      && r.status == Active && m.now < r.endAt && r.scriptStatus == Some(ScriptRunning)
      && r.dispatchStartedAt.Some? && r.dispatchStartedAt.value < m.now - 60_000_000
    ensures var r, t := s.rows[id], Tick(s, o, m);
      var failures := multiset(s.audit)[DispatchAttemptFailed(id)];
      && |t.rows| == |s.rows|
      && (LifecycleStarted(id) in s.audit ==>
            t.rows[id] == r.(dispatchStartedAt := None) && SendTimes(t.sent, id) == SendTimes(s.sent, id))
      && (LifecycleStarted(id) !in s.audit && failures >= 3 ==>
            t.rows[id] == r.(status := Failed) && SendTimes(t.sent, id) == SendTimes(s.sent, id))
      && (LifecycleStarted(id) !in s.audit && failures < 3 && r.linkId in m.links ==>
            t.rows[id] == r.(dispatchStartedAt := Some(m.now)) && SendTimes(t.sent, id) == SendTimes(s.sent, id) + [m.now])
      && (LifecycleStarted(id) !in s.audit && failures < 3 && r.linkId !in m.links ==>
            t.rows[id] == r && SendTimes(t.sent, id) == SendTimes(s.sent, id))
  {
    hide Tick, SendTimes, OrdersCover;
    TickDecidesEachRow(s, o, m, id);
  }

  /** A row that has ended, or whose time has not come, or that neither waits for its script nor on it, stays as it is. */
  lemma TickSparesOthers(s: Store, o: Orders, m: Moment, id: nat)
    requires id < |s.rows| && OrdersCover(o, |s.rows|)
    requires var r := s.rows[id];
      || Terminal(r.status) || r.serverId !in m.servers
      || (r.status == Scheduled && m.now < r.startAt)
      || (r.status == Active && m.now < r.endAt && !ScriptIsDue(r, m) && !DispatchIsStuck(r, m))
    ensures var t := Tick(s, o, m);
      |t.rows| == |s.rows| && t.rows[id] == s.rows[id] && SendTimes(t.sent, id) == SendTimes(s.sent, id)
  {
    hide Tick, SendTimes, OrdersCover, StoryOf;
    TickDecidesEachRow(s, o, m, id);
  }
}
