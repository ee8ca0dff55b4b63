/** The monitor's tick over every process and GPU of one telemetry reading, as steps of a run. */
module ComplianceMonitor {
  import opened Prelude
  import opened ServerCaches
  import opened Compliance
  import opened PolicyHandlers
  import opened ComplianceRuns

  datatype Reading = Reading(gpu: Gpu, processes: seq<Process>)

  /** The clocks of one tick, and which processes a kill would end. */
  datatype Moment = Moment(wall: int, now: real, killable: set<int>)

  function SeeStep(p: Process, at: Moment): Step {
    See(p, at.wall, at.now, p.pid in at.killable)
  }

  ghost function AfterProcesses(a: Agent, processes: seq<Process>, at: Moment, setup: Setup): Agent {
    if processes == [] then a
    else Next(AfterProcesses(a, processes[..|processes| - 1], at, setup), SeeStep(processes[|processes| - 1], at), setup)
  }

  ghost function AfterRaises(a: Agent, found: seq<Violation>, at: Moment, setup: Setup): Agent {
    if found == [] then a
    else Next(AfterRaises(a, found[..|found| - 1], at, setup), Raise(found[|found| - 1], at.now, false), setup)
  }

  function Findings(a: Agent, g: Gpu, at: Moment, setup: Setup): seq<Violation> {
    GpuFindings(a.policies, setup.server, g, IdleSince(a.idle, setup.server, g.index), at.now)
  }

  ghost function AfterReading(a: Agent, r: Reading, at: Moment, setup: Setup): Agent {
    var looked := Next(AfterProcesses(a, r.processes, at, setup), Look(r.gpu, at.now), setup);
    AfterRaises(looked, Findings(looked, r.gpu, at, setup), at, setup)
  }

  ghost function AfterTick(a: Agent, readings: seq<Reading>, at: Moment, setup: Setup): Agent {
    if readings == [] then a
    else AfterReading(AfterTick(a, readings[..|readings| - 1], at, setup), readings[|readings| - 1], at, setup)
  }

  class Monitor {
    const reverse: ReverseCache
    const dispatcher: PolicyDispatcher
    var idle: map<(int, int), Option<real>>

    constructor (reverse: ReverseCache, dispatcher: PolicyDispatcher)
      ensures this.reverse == reverse && this.dispatcher == dispatcher && idle == map[]
    {
      this.reverse, this.dispatcher := reverse, dispatcher;
      idle := map[];
    }

    ghost function Value(): Agent
      reads this, reverse, dispatcher, dispatcher.policies, dispatcher.grace
    {
      Agent(reverse.accounts, dispatcher.policies.policies, dispatcher.capabilities, dispatcher.grace.pending, idle, dispatcher.effects)
    }

    function Config(): Setup {
      Setup(dispatcher.server, dispatcher.callbacks)
    }

    /** The detector half of one GPU's look: the streak is updated before it is judged. */
    method EvaluateGpu(g: Gpu, at: Moment) returns (found: seq<Violation>)
      modifies this
      ensures Value() == Next(old(Value()), Look(g, at.now), Config())
      ensures found == Findings(Value(), g, at, Config())
    {
      var server := dispatcher.server;
      var since := IdleSince(idle, server, g.index);
      if g.utilPercent == 0 {
        if since.None? {
          since := Some(at.now);
        }
      } else {
        since := None;
      }
      idle := idle[(server, g.index) := since];
      found := GpuFindings(dispatcher.policies.policies, server, g, since, at.now);
    }

    method DispatchOne(v: Violation, at: Moment, killWorks: bool)
      modifies dispatcher`effects, dispatcher.grace
      ensures Value() == Next(old(Value()), Raise(v, at.now, killWorks), Config())
    {
      var _ := dispatcher.Dispatch(v, at.now, killWorks);
    }

    method EvaluateProcesses(processes: seq<Process>, at: Moment)
      modifies dispatcher`effects, dispatcher.grace
      ensures Value() == AfterProcesses(old(Value()), processes, at, Config())
    {
      hide Next;
      for k := 0 to |processes|
        invariant Value() == AfterProcesses(old(Value()), processes[..k], at, Config())
      {
        ghost var a := Value();
        assert processes[..k + 1][..k] == processes[..k];
        var p := processes[k];
        var v := EvaluateProcess(reverse.accounts, dispatcher.policies.policies, dispatcher.server, p, at.wall);
        SeeIsRaise(a, p, at, Config());
        if v.Some? {
          DispatchOne(v.value, at, p.pid in at.killable);
        }
      }
      assert processes[..|processes|] == processes;
    }

    /** `run_tick`: every process of a GPU, then the GPU itself, each violation dispatched as it is found. */
    method RunTick(readings: seq<Reading>, at: Moment)
      modifies this, dispatcher`effects, dispatcher.grace
      ensures Value() == AfterTick(old(Value()), readings, at, Config())
    {
      hide Next, Findings, AfterProcesses;
      for i := 0 to |readings|
        invariant Value() == AfterTick(old(Value()), readings[..i], at, Config())
      {
        assert readings[..i + 1][..i] == readings[..i];
        EvaluateProcesses(readings[i].processes, at);
        var found := EvaluateGpu(readings[i].gpu, at);
        ghost var looked := Value();
        for k := 0 to |found|
          invariant Value() == AfterRaises(looked, found[..k], at, Config())
        {
          assert found[..k + 1][..k] == found[..k];
          DispatchOne(found[k], at, false);
        }
        assert found[..|found|] == found;
      }
      assert readings[..|readings|] == readings;
    }
  }

  /** Seeing a process is dispatching its verdict, if there is one. */
  lemma SeeIsRaise(a: Agent, p: Process, at: Moment, setup: Setup)
    ensures var v := Verdict(a.accounts, a.policies, setup.server, p, at.wall);
            Next(a, SeeStep(p, at), setup) == if v.Some? then Next(a, Raise(v.value, at.now, p.pid in at.killable), setup) else a
  {
    hide Verdict, Reaction, Noted, Applied;
  }

  // ----- a tick is a stretch of a run -----

  /** What every whole-run result needs to speak about ticks. */
  lemma {:induction false} TickIsARun(log: seq<Step>, readings: seq<Reading>, at: Moment, setup: Setup)
    returns (more: seq<Step>)
    ensures After(log + more, setup) == AfterTick(After(log, setup), readings, at, setup)
    ensures forall k :: 0 <= k < |more| ==> (more[k].See? || more[k].Look? || more[k].Raise?) && more[k].now == at.now
  {
    hide Next, Findings, After;
    if readings == [] {
      more := [];
      assert log + more == log;
      return;
    }
    var before := TickIsARun(log, readings[..|readings| - 1], at, setup);
    var r := readings[|readings| - 1];
    var seen := ProcessesAreARun(log + before, r.processes, at, setup);
    var looked := log + before + seen + [Look(r.gpu, at.now)];
    AfterAppend(log + before + seen, Look(r.gpu, at.now), setup);
    var raised := RaisesAreARun(looked, Findings(After(looked, setup), r.gpu, at, setup), at, setup);
    more := before + seen + [Look(r.gpu, at.now)] + raised;
    assert log + more == looked + raised;
  }

  lemma AfterAppend(log: seq<Step>, step: Step, setup: Setup)
    ensures After(log + [step], setup) == Next(After(log, setup), step, setup)
  {
    hide Next;
    assert (log + [step])[..|log|] == log;
  }

  lemma {:induction false} ProcessesAreARun(log: seq<Step>, processes: seq<Process>, at: Moment, setup: Setup)
    returns (more: seq<Step>)
    ensures After(log + more, setup) == AfterProcesses(After(log, setup), processes, at, setup)
    ensures forall k :: 0 <= k < |more| ==> more[k].See? && more[k].now == at.now
  {
    hide Next, After;
    more := [];
    assert log + more == log;
    if processes != [] {
      var before := ProcessesAreARun(log, processes[..|processes| - 1], at, setup);
      var step := SeeStep(processes[|processes| - 1], at);
      AfterAppend(log + before, step, setup);
      more := before + [step];
      assert log + more == log + before + [step];
    }
  }

  lemma {:induction false} RaisesAreARun(log: seq<Step>, found: seq<Violation>, at: Moment, setup: Setup)
    returns (more: seq<Step>)
    ensures After(log + more, setup) == AfterRaises(After(log, setup), found, at, setup)
    ensures forall k :: 0 <= k < |more| ==> more[k].Raise? && more[k].now == at.now
  {
    hide Next, After;
    more := [];
    assert log + more == log;
    if found != [] {
      var before := RaisesAreARun(log, found[..|found| - 1], at, setup);
      var step := Raise(found[|found| - 1], at.now, false);
      AfterAppend(log + before, step, setup);
      more := before + [step];
      assert log + more == log + before + [step];
    }
  }
}
