/** The grace period over whole histories of monitor ticks, against the continuous observation it is documented as. */
module GraceRuns {
  import opened Prelude
  import opened ServerCaches
  import opened Compliance
  import opened PolicyHandlers
  import opened ComplianceRuns
  import opened ComplianceMonitor

  /** One monitor tick over all GPUs and processes, or one message between ticks. */
  datatype Beat = Tick(readings: seq<Reading>, at: Moment) | Message(step: Step)

  predicate IsMessage(step: Step) {
    step.AccountSync? || step.PolicySync? || step.SetCapability?
  }

  ghost function AfterBeat(a: Agent, beat: Beat, setup: Setup): Agent {
    match beat
    case Tick(readings, at) => AfterTick(a, readings, at, setup)
    case Message(step) => if IsMessage(step) then Next(a, step, setup) else a
  }

  ghost function AfterBeats(beats: seq<Beat>, setup: Setup): Agent {
    if beats == [] then IDLE else AfterBeat(AfterBeats(beats[..|beats| - 1], setup), beats[|beats| - 1], setup)
  }

  // ----- what a tick observes -----

  /** The policy of the signature is enabled and has a grace period. */
  ghost predicate Tracked(a: Agent, s: Signature, setup: Setup) {
    var policy := Find(a.policies, setup.server, s.key);
    policy.Some? && policy.value.enabled && !Immediate(policy.value.grace)
  }

  /** One of the processes is in violation with this signature. */
  ghost predicate ShownByProcess(a: Agent, processes: seq<Process>, at: Moment, setup: Setup, s: Signature) {
    exists i :: 0 <= i < |processes| && Violates(a, processes[i], at, setup, s)
  }

  ghost predicate Violates(a: Agent, p: Process, at: Moment, setup: Setup, s: Signature) {
    var v := Verdict(a.accounts, a.policies, setup.server, p, at.wall);
    v.Some? && SignatureOf(v.value) == s
  }

  predicate ShownAmong(found: seq<Violation>, s: Signature) {
    exists i :: 0 <= i < |found| && SignatureOf(found[i]) == s
  }

  ghost function AfterLook(a: Agent, r: Reading, at: Moment, setup: Setup): Agent {
    Next(AfterProcesses(a, r.processes, at, setup), Look(r.gpu, at.now), setup)
  }

  ghost predicate ShownInReading(a: Agent, r: Reading, at: Moment, setup: Setup, s: Signature) {
    || ShownByProcess(a, r.processes, at, setup, s)
    || ShownAmong(Findings(AfterLook(a, r, at, setup), r.gpu, at, setup), s)
  }

  /** The tick observes the signature in one of its readings; a process or GPU that is absent shows nothing. */
  ghost predicate Shown(a: Agent, readings: seq<Reading>, at: Moment, setup: Setup, s: Signature) {
    exists i :: 0 <= i < |readings| && ShownInReading(AfterTick(a, readings[..i], at, setup), readings[i], at, setup, s)
  }

  ghost predicate Observes(a: Agent, readings: seq<Reading>, at: Moment, setup: Setup, s: Signature) {
    Tracked(a, s, setup) && Shown(a, readings, at, setup, s)
  }

  // ----- what a tick does to a timer -----

  /** The timer of the signature after a stretch at one instant: started if it was noted and not yet running. */
  ghost predicate Timed(a: Agent, b: Agent, s: Signature, noted: bool, now: real) {
    && b.accounts == a.accounts && b.policies == a.policies
    && (s in b.pending <==> s in a.pending || noted)
    && (s in b.pending ==> b.pending[s].first == if s in a.pending then a.pending[s].first else now)
  }

  lemma StepTimes(a: Agent, step: Step, s: Signature, setup: Setup)
    requires step.See? || step.Raise?
    ensures var v := Handled(a, step, setup);
            Timed(a, Next(a, step, setup), s, v.Some? && SignatureOf(v.value) == s && Tracked(a, s, setup), step.now)
  {
    hide Handled, Next;
    StepNotes(a, step, s, setup);
    StepChanges(a, step, setup);
  }

  lemma LookTimes(a: Agent, g: Gpu, s: Signature, now: real, setup: Setup)
    ensures Timed(a, Next(a, Look(g, now), setup), s, false, now)
  {
    hide Next;
    StepChanges(a, Look(g, now), setup);
  }

  lemma {:induction false} ProcessesTime(a: Agent, processes: seq<Process>, at: Moment, setup: Setup, s: Signature)
    ensures Timed(a, AfterProcesses(a, processes, at, setup), s,
                  Tracked(a, s, setup) && ShownByProcess(a, processes, at, setup, s), at.now)
    decreases |processes|
  {
    if processes != [] {
      var n := |processes| - 1;
      var init := processes[..n];
      ProcessesTime(a, init, at, setup, s);
      var b := AfterProcesses(a, init, at, setup);
      ProcessTimes(a, b, processes[n], at, setup, s, Tracked(a, s, setup) && ShownByProcess(a, init, at, setup, s));
      hide Timed, Tracked, Violates, Next;
      assert forall i :: 0 <= i < n ==> init[i] == processes[i];
      assert ShownByProcess(a, processes, at, setup, s) <==>
             ShownByProcess(a, init, at, setup, s) || Violates(a, processes[n], at, setup, s);
    }
  }

  /** One more process after a stretch of the same tick. */
  lemma ProcessTimes(a: Agent, b: Agent, p: Process, at: Moment, setup: Setup, s: Signature, noted: bool)
    requires Timed(a, b, s, noted, at.now)
    ensures Timed(a, Next(b, SeeStep(p, at), setup), s, noted || (Tracked(a, s, setup) && Violates(a, p, at, setup, s)), at.now)
  {
    hide Next, Verdict;
    StepTimes(b, SeeStep(p, at), s, setup);
    TimedTwice(a, b, Next(b, SeeStep(p, at), setup), s, noted, Tracked(a, s, setup) && Violates(a, p, at, setup, s), at.now);
  }

  lemma SameTracking(a: Agent, b: Agent, s: Signature, setup: Setup)
    requires a.policies == b.policies
    ensures Tracked(a, s, setup) <==> Tracked(b, s, setup)
  {
  }

  lemma {:induction false} RaisesTime(a: Agent, found: seq<Violation>, at: Moment, setup: Setup, s: Signature)
    ensures Timed(a, AfterRaises(a, found, at, setup), s, Tracked(a, s, setup) && ShownAmong(found, s), at.now)
    decreases |found|
  {
    if found != [] {
      hide Next, Tracked;
      var n := |found| - 1;
      var init := found[..n];
      RaisesTime(a, init, at, setup, s);
      var b := AfterRaises(a, init, at, setup);
      StepTimes(b, Raise(found[n], at.now, false), s, setup);
      SameTracking(a, b, s, setup);
      assert forall i :: 0 <= i < n ==> init[i] == found[i];
      assert ShownAmong(found, s) <==> ShownAmong(init, s) || SignatureOf(found[n]) == s;
    }
  }

  lemma TimedTwice(a: Agent, b: Agent, c: Agent, s: Signature, one: bool, two: bool, now: real)
    requires Timed(a, b, s, one, now) && Timed(b, c, s, two, now)
    ensures Timed(a, c, s, one || two, now)
  {
  }

  lemma ReadingTimes(a: Agent, r: Reading, at: Moment, setup: Setup, s: Signature)
    ensures Timed(a, AfterReading(a, r, at, setup), s, Tracked(a, s, setup) && ShownInReading(a, r, at, setup, s), at.now)
  {
    hide Next, Tracked, Timed, ShownByProcess, ShownAmong, Findings, AfterProcesses, AfterRaises;
    var b := AfterProcesses(a, r.processes, at, setup);
    var looked := AfterLook(a, r, at, setup);
    var found := Findings(looked, r.gpu, at, setup);
    ProcessesTime(a, r.processes, at, setup, s);
    LookTimes(b, r.gpu, s, at.now, setup);
    RaisesTime(looked, found, at, setup, s);
    KeepsTracking(a, b, s, setup, Tracked(a, s, setup) && ShownByProcess(a, r.processes, at, setup, s), at.now);
    KeepsTracking(b, looked, s, setup, false, at.now);
    TimedTwice(a, b, looked, s, Tracked(a, s, setup) && ShownByProcess(a, r.processes, at, setup, s), false, at.now);
    TimedTwice(a, looked, AfterReading(a, r, at, setup), s, Tracked(a, s, setup) && ShownByProcess(a, r.processes, at, setup, s),
               Tracked(looked, s, setup) && ShownAmong(found, s), at.now);
  }

  lemma KeepsTracking(a: Agent, b: Agent, s: Signature, setup: Setup, noted: bool, now: real)
    requires Timed(a, b, s, noted, now)
    ensures Tracked(a, s, setup) <==> Tracked(b, s, setup)
  {
  }

  /** A tick starts the timer of exactly the signatures it observes, and leaves a running one as it is. */
  lemma {:induction false} TickTimes(a: Agent, readings: seq<Reading>, at: Moment, setup: Setup, s: Signature)
    ensures Timed(a, AfterTick(a, readings, at, setup), s, Observes(a, readings, at, setup, s), at.now)
    decreases |readings|
  {
    hide AfterReading, ShownInReading, Tracked;
    if readings != [] {
      var n := |readings| - 1;
      var init := readings[..n];
      TickTimes(a, init, at, setup, s);
      var b := AfterTick(a, init, at, setup);
      ReadingTimes(b, readings[n], at, setup, s);
      KeepsTracking(a, b, s, setup, Observes(a, init, at, setup, s), at.now);
      ShownGrows(a, readings, at, setup, s);
      TimedTwice(a, b, AfterTick(a, readings, at, setup), s, Observes(a, init, at, setup, s),
                 Tracked(b, s, setup) && ShownInReading(b, readings[n], at, setup, s), at.now);
      hide Timed, Shown;
    }
  }

  lemma ShownGrows(a: Agent, readings: seq<Reading>, at: Moment, setup: Setup, s: Signature)
    requires readings != []
    ensures var n := |readings| - 1;
            Shown(a, readings, at, setup, s) <==>
            || Shown(a, readings[..n], at, setup, s)
            || ShownInReading(AfterTick(a, readings[..n], at, setup), readings[n], at, setup, s)
  {
    hide AfterTick, ShownInReading;
    var n := |readings| - 1;
    assert forall i :: 0 <= i < n ==> readings[..n][..i] == readings[..i] && readings[..n][i] == readings[i];
  }

  // ----- histories of ticks -----

  /** Tick k of the history observed the signature. */
  ghost predicate ObservedAt(beats: seq<Beat>, k: nat, s: Signature, setup: Setup)
    requires k < |beats|
  {
    beats[k].Tick? && Observes(AfterBeats(beats[..k], setup), beats[k].readings, beats[k].at, setup, s)
  }

  ghost predicate FirstObservedAt(beats: seq<Beat>, k: nat, s: Signature, setup: Setup)
    requires k < |beats|
  {
    ObservedAt(beats, k, s, setup) && forall j :: 0 <= j < k ==> !ObservedAt(beats, j, s, setup)
  }

  /** Every tick from k on observed the signature. */
  ghost predicate UnbrokenFrom(beats: seq<Beat>, k: nat, s: Signature, setup: Setup) {
    forall j :: k <= j < |beats| && beats[j].Tick? ==> ObservedAt(beats, j, s, setup)
  }

  /** Tick i began the run of observations that is still unbroken. */
  ghost predicate RunStartsAt(beats: seq<Beat>, i: nat, s: Signature, setup: Setup)
    requires i < |beats|
  {
    && ObservedAt(beats, i, s, setup) && UnbrokenFrom(beats, i, s, setup)
    && forall k :: 0 <= k < i && beats[k].Tick? ==> !UnbrokenFrom(beats, k, s, setup)
  }

  /** What the tracker answers at an instant after the history. */
  ghost predicate Due(beats: seq<Beat>, s: Signature, grace: int, now: real, setup: Setup) {
    GraceOver(AfterBeats(beats, setup).pending, s, Some(grace), now)
  }

  /** What its documentation says: observed continuously for the grace period. */
  ghost predicate ContinuouslyDue(beats: seq<Beat>, s: Signature, grace: int, now: real, setup: Setup) {
    exists i :: 0 <= i < |beats| && RunStartsAt(beats, i, s, setup) && now - beats[i].at.now >= grace as real
  }

  /** The monotonic clock moves on from tick to tick. */
  predicate InOrder(beats: seq<Beat>) {
    forall i, j :: 0 <= i < j < |beats| && beats[i].Tick? && beats[j].Tick? ==> beats[i].at.now < beats[j].at.now
  }

  predicate LaterThan(beats: seq<Beat>, now: real) {
    forall k :: 0 <= k < |beats| && beats[k].Tick? ==> beats[k].at.now < now
  }

  lemma AfterPrefix(beats: seq<Beat>, n: nat, setup: Setup)
    requires 0 < n <= |beats|
    ensures AfterBeats(beats[..n], setup) == AfterBeat(AfterBeats(beats[..n - 1], setup), beats[n - 1], setup)
  {
    hide AfterBeat;
    assert beats[..n][..n - 1] == beats[..n - 1];
  }

  function TimerOf(pending: map<Signature, Pending>, s: Signature): Option<real> {
    if s in pending then Some(pending[s].first) else None
  }

  /** The first of the first n beats that observed the signature is a tick at this instant, or none observed it. */
  ghost predicate DatesFrom(beats: seq<Beat>, n: nat, s: Signature, timer: Option<real>, setup: Setup)
    requires n <= |beats|
  {
    match timer
    case Some(t) => exists k :: 0 <= k < n && FirstObservedAt(beats, k, s, setup) && beats[k].Tick? && beats[k].at.now == t
    case None => forall k :: 0 <= k < n ==> !ObservedAt(beats, k, s, setup)
  }

  lemma DatesFromNext(beats: seq<Beat>, n: nat, s: Signature, timer: Option<real>, setup: Setup)
    requires n < |beats| && DatesFrom(beats, n, s, timer, setup)
    ensures ObservedAt(beats, n, s, setup) ==> beats[n].Tick?
    ensures DatesFrom(beats, n + 1, s,
                      if timer.None? && ObservedAt(beats, n, s, setup) then Some(beats[n].at.now) else timer, setup)
  {
    assert ObservedAt(beats, n, s, setup) ==> beats[n].Tick?;
    hide ObservedAt;
    if timer.None? && ObservedAt(beats, n, s, setup) {
      assert FirstObservedAt(beats, n, s, setup);
    }
  }

  /** A timer dates from the first tick that ever observed the signature. */
  lemma {:induction false} TimerIsFirstObservation(beats: seq<Beat>, n: nat, s: Signature, setup: Setup)
    requires n <= |beats|
    ensures DatesFrom(beats, n, s, TimerOf(AfterBeats(beats[..n], setup).pending, s), setup)
    decreases n
  {
    if n > 0 {
      hide DatesFrom, AfterBeats, AfterBeat, Observes;
      TimerIsFirstObservation(beats, n - 1, s, setup);
      AfterPrefix(beats, n, setup);
      var before := AfterBeats(beats[..n - 1], setup);
      BeatTimes(before, beats[n - 1], s, setup);
      DatesFromNext(beats, n - 1, s, TimerOf(before.pending, s), setup);
    }
  }

  lemma BeatTimes(a: Agent, beat: Beat, s: Signature, setup: Setup)
    ensures var before, after := TimerOf(a.pending, s), TimerOf(AfterBeat(a, beat, setup).pending, s);
            var noted := beat.Tick? && Observes(a, beat.readings, beat.at, setup, s);
            after == if before.None? && noted then Some(beat.at.now) else before
  {
    hide Next, Observes, AfterTick;
    match beat {
      case Tick(readings, at) => TickTimes(a, readings, at, setup, s);
      case Message(step) => StepChanges(a, step, setup);
    }
  }

  lemma {:induction false} SomeLaterInstant(beats: seq<Beat>, from: real) returns (t: real)
    ensures t >= from && forall k :: 0 <= k < |beats| && beats[k].Tick? ==> beats[k].at.now <= t
    decreases |beats|
  {
    t := from;
    if beats != [] {
      var n := |beats| - 1;
      t := SomeLaterInstant(beats[..n], from);
      assert forall k :: 0 <= k < n ==> beats[..n][k] == beats[k];
      if beats[n].Tick? && beats[n].at.now > t {
        t := beats[n].at.now;
      }
    }
  }

  /**
   * The tracker answers as documented, at every later instant and for every grace, exactly when no tick since the
   * first observation of the signature failed to observe it.
   */
  lemma GraceIsContinuousExactly(beats: seq<Beat>, s: Signature, setup: Setup)
    requires InOrder(beats)
    ensures (forall grace: int, now: real :: grace >= 1 && LaterThan(beats, now) ==>
               (Due(beats, s, grace, now, setup) <==> ContinuouslyDue(beats, s, grace, now, setup)))
            <==> forall k :: 0 <= k < |beats| && FirstObservedAt(beats, k, s, setup) ==> UnbrokenFrom(beats, k, s, setup)
  {
    hide ObservedAt, AfterBeats, UnbrokenFrom;
    TimerIsFirstObservation(beats, |beats|, s, setup);
    assert beats[..|beats|] == beats;
    var pending := AfterBeats(beats, setup).pending;
    if s !in pending {
      forall grace: int, now: real | grace >= 1
        ensures !Due(beats, s, grace, now, setup) && !ContinuouslyDue(beats, s, grace, now, setup)
      {
      }
    } else {
      var k :| 0 <= k < |beats| && FirstObservedAt(beats, k, s, setup) && beats[k].Tick? && beats[k].at.now == pending[s].first;
      if UnbrokenFrom(beats, k, s, setup) {
        UnbrokenAgrees(beats, k, s, setup);
        OneFirst(beats, k, s, setup);
      } else {
        BrokenDisagrees(beats, k, s, setup);
      }
    }
  }

  lemma OneFirst(beats: seq<Beat>, k: nat, s: Signature, setup: Setup)
    requires k < |beats| && FirstObservedAt(beats, k, s, setup)
    ensures forall j :: 0 <= j < |beats| && FirstObservedAt(beats, j, s, setup) ==> j == k
  {
    hide ObservedAt;
    forall j | 0 <= j < |beats| && FirstObservedAt(beats, j, s, setup)
      ensures j == k
    {
      assert ObservedAt(beats, j, s, setup) && ObservedAt(beats, k, s, setup);
    }
  }

  lemma UnbrokenAgrees(beats: seq<Beat>, k: nat, s: Signature, setup: Setup)
    requires k < |beats| && FirstObservedAt(beats, k, s, setup) && UnbrokenFrom(beats, k, s, setup)
    requires var pending := AfterBeats(beats, setup).pending; s in pending && beats[k].at.now == pending[s].first
    ensures forall grace: int, now: real :: grace >= 1 ==>
              (Due(beats, s, grace, now, setup) <==> ContinuouslyDue(beats, s, grace, now, setup))
  {
    hide AfterBeats, Observes;
    assert ObservedAt(beats, k, s, setup) ==> beats[k].Tick?;
    assert RunStartsAt(beats, k, s, setup) by {
      forall j | 0 <= j < k && beats[j].Tick?
        ensures !UnbrokenFrom(beats, j, s, setup)
      {
        assert !ObservedAt(beats, j, s, setup);
      }
    }
    forall i | 0 <= i < |beats| && RunStartsAt(beats, i, s, setup)
      ensures i == k
    {
      assert ObservedAt(beats, i, s, setup) && beats[k].Tick?;
    }
    hide RunStartsAt;
  }

  lemma BrokenDisagrees(beats: seq<Beat>, k: nat, s: Signature, setup: Setup)
    requires InOrder(beats) && k < |beats| && FirstObservedAt(beats, k, s, setup) && !UnbrokenFrom(beats, k, s, setup)
    requires var pending := AfterBeats(beats, setup).pending; s in pending && beats[k].at.now == pending[s].first
    ensures exists grace: int, now: real :: grace >= 1 && LaterThan(beats, now)
              && Due(beats, s, grace, now, setup) && !ContinuouslyDue(beats, s, grace, now, setup)
  {
    hide AfterBeats, Observes;
    var first := beats[k].at.now;
    var t := SomeLaterInstant(beats, first);
    var grace := (t - first).Floor + 1;
    var now := first + grace as real;
    assert LaterThan(beats, now);
    assert Due(beats, s, grace, now, setup);
    forall i | 0 <= i < |beats| && RunStartsAt(beats, i, s, setup)
      ensures now - beats[i].at.now < grace as real
    {
      assert ObservedAt(beats, i, s, setup) && ObservedAt(beats, k, s, setup);
      assert i > k;
    }
    hide RunStartsAt;
    assert !ContinuouslyDue(beats, s, grace, now, setup);
  }
}
