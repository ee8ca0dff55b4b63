/** Request and response over the agent connection: the pending table, the futures and the optional acknowledgements. */
module AgentRpc {
  import opened Prelude

  const MAX_OPTIONAL := 1024

  datatype Future = Waiting | Resolved(payload: string) | WrongFrame(got: string) | Dropped

  datatype Outcome = Replied(payload: string) | Unexpected(got: string) | TimedOut | SendFailed | Abandoned

  /** `Leaving` is a call whose timer fired or whose caller went away, and whose `finally` is still to run. */
  datatype Phase = Sending | Awaiting | Leaving(why: Outcome) | Returned(outcome: Outcome)

  /** One `request_response` call: its envelope id, the frame type that answers it, its future and where it stands. */
  datatype Call = Call(id: string, expected: string, future: Future, phase: Phase)

  datatype Ack = Ack(id: string, frame: string)

  /** `optional` keeps the insertion order of the dictionary. */
  datatype Table = Table(pending: map<string, nat>, optional: seq<Ack>, calls: seq<Call>)

  const EMPTY := Table(map[], [], [])

  // ----- the optional table -----

  function Ids(acks: seq<Ack>): (r: seq<string>)
    ensures |r| == |acks| && forall k :: 0 <= k < |r| ==> r[k] == acks[k].id
  {
    if acks == [] then [] else [acks[0].id] + Ids(acks[1..])
  }

  predicate Distinct(acks: seq<Ack>) {
    forall i, j :: 0 <= i < j < |acks| ==> acks[i].id != acks[j].id
  }

  function Position(acks: seq<Ack>, id: string): (k: nat)
    ensures k <= |acks| && (k < |acks| ==> acks[k].id == id)
    ensures forall j :: 0 <= j < k ==> acks[j].id != id
  {
    if acks == [] || acks[0].id == id then 0 else 1 + Position(acks[1..], id)
  }

  /** Assignment to a dictionary key: an old key keeps its place. */
  function Put(acks: seq<Ack>, ack: Ack): seq<Ack> {
    var k := Position(acks, ack.id);
    if k < |acks| then acks[k := ack] else acks + [ack]
  }

  function Take(acks: seq<Ack>, id: string): seq<Ack> {
    var k := Position(acks, id);
    if k < |acks| then acks[..k] + acks[k + 1..] else acks
  }

  function Newest(acks: seq<Ack>, n: nat): seq<Ack> {
    if |acks| <= n then acks else acks[|acks| - n..]
  }

  lemma DropOldest(acks: seq<Ack>, n: nat)
    requires |acks| > n
    ensures Newest(acks[1..], n) == Newest(acks, n)
  {
  }

  // ----- what each step does -----

  function Judged(expected: string, frame: string, payload: string): Future {
    if frame == expected then Resolved(payload) else WrongFrame(frame)
  }

  datatype Step =
    | Begin(id: string, expected: string)
    | Sent(n: nat)
    | SendError(n: nat)
    | Deliver(to: Option<string>, frame: string, payload: string)
    | Resume(n: nat)
    | Timeout(n: nat)
    | Abandon(n: nat)
    | Leave(n: nat)
    | Expect(ack: Ack)

  /** A call is over: its `finally` drops the pending entry and cancels an open future. */
  function Finished(t: Table, n: nat, outcome: Outcome): Table
    requires n < |t.calls|
  {
    var call := t.calls[n];
    t.(pending := t.pending - {call.id},
       calls := t.calls[n := call.(phase := Returned(outcome), future := if call.future == Waiting then Dropped else call.future)])
  }

  predicate Open(call: Call) {
    call.phase == Sending || call.phase == Awaiting
  }

  /**
   * The call will leave without an answer, even if one has come in the same turn of the loop. A future it is waiting
   * on is cancelled at once, its entry stays until the `finally` runs.
   */
  function Interrupted(t: Table, n: nat, why: Outcome): Table
    requires n < |t.calls|
  {
    var call := t.calls[n];
    var future := if call.phase == Awaiting && call.future == Waiting then Dropped else call.future;
    t.(calls := t.calls[n := call.(phase := Leaving(why), future := future)])
  }

  function Delivered(t: Table, id: string, frame: string, payload: string): (Table, bool) {
    if id !in t.pending then
      var k := Position(t.optional, id);
      (t.(optional := Take(t.optional, id)), k < |t.optional| && t.optional[k].frame == frame)
    else
      var n := t.pending[id];
      var popped := t.(pending := t.pending - {id});
      if n >= |t.calls| || t.calls[n].future != Waiting then (popped, false)
      else (popped.(calls := t.calls[n := t.calls[n].(future := Judged(t.calls[n].expected, frame, payload))]), true)
  }

  function Result(future: Future): Outcome {
    match future
    case Resolved(payload) => Replied(payload)
    case WrongFrame(got) => Unexpected(got)
    case _ => Abandoned
  }

  /** A step that cannot happen leaves the state alone. */
  function Next(t: Table, step: Step): Table {
    match step
    case Begin(id, expected) => t.(pending := t.pending[id := |t.calls|], calls := t.calls + [Call(id, expected, Waiting, Sending)])
    case Sent(n) => if n < |t.calls| && t.calls[n].phase == Sending then t.(calls := t.calls[n := t.calls[n].(phase := Awaiting)]) else t
    case SendError(n) => if n < |t.calls| && t.calls[n].phase == Sending then Finished(t, n, SendFailed) else t
    case Deliver(to, frame, payload) => if to.None? then t else Delivered(t, to.value, frame, payload).0
    case Resume(n) =>
      if n < |t.calls| && t.calls[n].phase == Awaiting && t.calls[n].future != Waiting
      then Finished(t, n, Result(t.calls[n].future)) else t
    case Timeout(n) => if n < |t.calls| && t.calls[n].phase == Awaiting then Interrupted(t, n, TimedOut) else t
    case Abandon(n) => if n < |t.calls| && Open(t.calls[n]) then Interrupted(t, n, Abandoned) else t
    case Leave(n) => if n < |t.calls| && t.calls[n].phase.Leaving? then Finished(t, n, t.calls[n].phase.why) else t
    case Expect(ack) => t.(optional := Newest(Put(t.optional, ack), MAX_OPTIONAL))
  }

  function After(log: seq<Step>): Table {
    if log == [] then EMPTY else Next(After(log[..|log| - 1]), log[|log| - 1])
  }

  // ----- the module's tables, updated in place -----

  class Tables {
    var pending: map<string, nat>
    var optional: seq<Ack>
    var calls: seq<Call>

    function Value(): Table
      reads this
    {
      Table(pending, optional, calls)
    }

    constructor ()
      ensures Value() == EMPTY
    {
      pending, optional, calls := map[], [], [];
    }

    method ExpectOptionalResponse(id: string, frame: string, responses: map<string, string>) returns (known: bool)
      modifies this`optional
      ensures known == (frame in responses)
      ensures Value() == if known then Next(old(Value()), Expect(Ack(id, responses[frame]))) else old(Value())
    {
      if frame !in responses {
        return false;
      }
      optional := Put(optional, Ack(id, responses[frame]));
      hide Put;
      ghost var all := optional;
      while |optional| > MAX_OPTIONAL
        invariant Newest(optional, MAX_OPTIONAL) == Newest(all, MAX_OPTIONAL)
      {
        DropOldest(optional, MAX_OPTIONAL);
        optional := optional[1..];
      }
      known := true;
    }

    method DeliverResponse(to: Option<string>, frame: string, payload: string) returns (used: bool)
      modifies this
      ensures Value() == Next(old(Value()), Deliver(to, frame, payload))
      ensures used == (to.Some? && Delivered(old(Value()), to.value, frame, payload).1)
    {
      if to.None? {
        return false;
      }
      var id := to.value;
      if id !in pending {
        var k := Position(optional, id);
        used := k < |optional| && optional[k].frame == frame;
        optional := Take(optional, id);
        return;
      }
      var n := pending[id];
      pending := pending - {id};
      if n >= |calls| || calls[n].future != Waiting {
        return false;
      }
      if frame != calls[n].expected {
        calls := calls[n := calls[n].(future := WrongFrame(frame))];
        return true;
      }
      calls := calls[n := calls[n].(future := Resolved(payload))];
      used := true;
    }

    method BeginRequest(id: string, frame: string, online: bool, responses: map<string, string>) returns (n: Option<nat>)
      modifies this
      ensures n.Some? <==> frame in responses && online
      ensures Value() == if n.Some? then Next(old(Value()), Begin(id, responses[frame])) else old(Value())
      ensures n.Some? ==> n.value == old(|calls|)
    {
      if frame !in responses || !online {
        return None;
      }
      n := Some(|calls|);
      pending := pending[id := |calls|];
      calls := calls + [Call(id, responses[frame], Waiting, Sending)];
    }

    /** The timer fires, or the caller goes away, while the call awaits: its future is cancelled before its `finally` runs. */
    method Interrupt(n: nat, why: Outcome)
      requires n < |calls|
      modifies this`calls
      ensures Value() == Interrupted(old(Value()), n, why)
    {
      var future := calls[n].future;
      if calls[n].phase == Awaiting && future == Waiting {
        future := Dropped;
      }
      calls := calls[n := calls[n].(phase := Leaving(why), future := future)];
    }

    /** The `finally` of a call. */
    method Finish(n: nat, outcome: Outcome)
      requires n < |calls|
      modifies this
      ensures Value() == Finished(old(Value()), n, outcome)
    {
      pending := pending - {calls[n].id};
      var future := calls[n].future;
      if future == Waiting {
        future := Dropped;
      }
      calls := calls[n := calls[n].(phase := Returned(outcome), future := future)];
    }
  }

  // ----- the pending table -----

  /**
   * Every pending entry is a call under its own id that has not returned and is still to be answered, unless it is
   * leaving; and the optional table is small and without repeats.
   */
  predicate Sound(t: Table) {
    && (forall id :: id in t.pending ==>
          && t.pending[id] < |t.calls| && t.calls[t.pending[id]].id == id
          && !t.calls[t.pending[id]].phase.Returned?
          && (t.calls[t.pending[id]].future == Waiting || t.calls[t.pending[id]].phase.Leaving?))
    && (forall n :: 0 <= n < |t.calls| ==> LeavesEmptyHanded(t.calls[n]))
    && |t.optional| <= MAX_OPTIONAL && Distinct(t.optional)
  }

  /** A call that is leaving has no answer to give, and the future of one that is not is never cancelled. */
  predicate LeavesEmptyHanded(call: Call) {
    && (call.phase.Leaving? ==> call.phase.why == TimedOut || call.phase.why == Abandoned)
    && (Open(call) ==> call.future != Dropped)
  }

  lemma FinishedKeepsSound(t: Table, n: nat, outcome: Outcome)
    requires Sound(t) && n < |t.calls|
    ensures Sound(Finished(t, n, outcome))
  {
  }

  lemma InterruptedKeepsSound(t: Table, n: nat, why: Outcome)
    requires Sound(t) && n < |t.calls| && !t.calls[n].phase.Returned? && (why == TimedOut || why == Abandoned)
    ensures Sound(Interrupted(t, n, why))
  {
  }

  lemma DeliveredKeepsSound(t: Table, id: string, frame: string, payload: string)
    requires Sound(t)
    ensures Sound(Delivered(t, id, frame, payload).0)
  {
    hide Take, Position;
    TakeKeepsDistinct(t.optional, id);
  }

  lemma NextKeepsSound(t: Table, step: Step)
    requires Sound(t)
    ensures Sound(Next(t, step))
  {
    hide Put, Newest, Finished, Interrupted, Delivered;
    match step
    case SendError(n) => if n < |t.calls| { FinishedKeepsSound(t, n, SendFailed); }
    case Deliver(to, frame, payload) => if to.Some? { DeliveredKeepsSound(t, to.value, frame, payload); }
    case Resume(n) => if n < |t.calls| { FinishedKeepsSound(t, n, Result(t.calls[n].future)); }
    case Timeout(n) => if n < |t.calls| && Open(t.calls[n]) { InterruptedKeepsSound(t, n, TimedOut); }
    case Abandon(n) => if n < |t.calls| && Open(t.calls[n]) { InterruptedKeepsSound(t, n, Abandoned); }
    case Leave(n) => if n < |t.calls| && t.calls[n].phase.Leaving? { FinishedKeepsSound(t, n, t.calls[n].phase.why); }
    case Expect(ack) => PutKeepsDistinct(t.optional, ack);
    case _ =>
  }

  lemma PutKeepsDistinct(acks: seq<Ack>, ack: Ack)
    requires Distinct(acks)
    ensures Distinct(Newest(Put(acks, ack), MAX_OPTIONAL)) && |Newest(Put(acks, ack), MAX_OPTIONAL)| <= MAX_OPTIONAL
    ensures |acks| <= MAX_OPTIONAL ==> ack in Newest(Put(acks, ack), MAX_OPTIONAL)
  {
    var put := Put(acks, ack);
    var k := Position(acks, ack.id);
    assert Distinct(put);
    var newest := Newest(put, MAX_OPTIONAL);
    if k < |acks| {
      assert put[k] == ack;
    } else {
      assert newest[|newest| - 1] == ack;
    }
  }

  lemma PutHolds(acks: seq<Ack>, ack: Ack, other: Ack)
    requires other.id != ack.id
    ensures var put := Put(acks, ack);
      && (other in put <==> other in acks)
      && |put| == (if (exists a :: a in acks && a.id == ack.id) then |acks| else |acks| + 1)
      && (acks != [] && acks[0] == other ==> put[0] == other)
  {
    var k, put := Position(acks, ack.id), Put(acks, ack);
    assert forall i :: 0 <= i < |acks| && i != k ==> put[i] == acks[i];
    forall i | 0 <= i < |acks| && acks[i] == other
      ensures put[i] == other
    {
    }
  }

  lemma NewestDropsFirst(acks: seq<Ack>, other: Ack)
    requires |acks| == MAX_OPTIONAL + 1 && forall i, j :: 0 <= i < j < |acks| ==> acks[i] != acks[j]
    ensures other in Newest(acks, MAX_OPTIONAL) <==> other in acks && acks[0] != other
  {
    assert acks == [acks[0]] + Newest(acks, MAX_OPTIONAL);
  }

  lemma PutIsDistinct(acks: seq<Ack>, ack: Ack)
    requires Distinct(acks)
    ensures Distinct(Put(acks, ack))
  {
  }

  /** Only a new id in a full table costs another one its place, and then the oldest. */
  lemma PutEvictsOldest(acks: seq<Ack>, ack: Ack, other: Ack)
    requires Distinct(acks) && |acks| <= MAX_OPTIONAL && other.id != ack.id
    ensures other in Newest(Put(acks, ack), MAX_OPTIONAL)
            <==> other in acks && !(|acks| == MAX_OPTIONAL && (forall a :: a in acks ==> a.id != ack.id) && other == acks[0])
  {
    PutHolds(acks, ack, other);
    PutIsDistinct(acks, ack);
    var put := Put(acks, ack);
    hide Put;
    if |put| > MAX_OPTIONAL {
      NewestDropsFirst(put, other);
      FirstStays(acks, ack, put);
    }
  }

  lemma FirstStays(acks: seq<Ack>, ack: Ack, put: seq<Ack>)
    requires put == Put(acks, ack) && |put| > |acks| && acks != []
    ensures put[0] == acks[0]
  {
  }

  /** A frame is used exactly when it answers a waiting call, or is the awaited optional reply to an id that is not pending. */
  lemma DeliveryIsUsedExactly(t: Table, id: string, frame: string, payload: string)
    requires Sound(t)
    ensures Delivered(t, id, frame, payload).1
            <==> if id in t.pending then t.calls[t.pending[id]].future == Waiting else Ack(id, frame) in t.optional
  {
    var k := Position(t.optional, id);
    if id !in t.pending && Ack(id, frame) in t.optional {
      var j :| 0 <= j < |t.optional| && t.optional[j] == Ack(id, frame);
      assert j == k;
    }
  }

  /** Taking an id out leaves the others in order. */
  lemma TakeShifts(acks: seq<Ack>, id: string)
    ensures var k, rest := Position(acks, id), Take(acks, id);
            && |rest| == (if k < |acks| then |acks| - 1 else |acks|)
            && forall j :: 0 <= j < |rest| ==> rest[j] == acks[if j < k then j else j + 1]
  {
    hide Position;
    var k := Position(acks, id);
    if k < |acks| {
      CutOne(acks, k);
    }
  }

  lemma CutOne(acks: seq<Ack>, k: nat)
    requires k < |acks|
    ensures var rest := acks[..k] + acks[k + 1..];
            && |rest| == |acks| - 1
            && forall j :: 0 <= j < |rest| ==> rest[j] == acks[if j < k then j else j + 1]
  {
    var front, back := acks[..k], acks[k + 1..];
    forall j | 0 <= j < |front + back|
      ensures (front + back)[j] == acks[if j < k then j else j + 1]
    {
    }
  }

  lemma TakeKeepsDistinct(acks: seq<Ack>, id: string)
    requires Distinct(acks)
    ensures Distinct(Take(acks, id)) && |Take(acks, id)| <= |acks|
  {
    hide Take, Position;
    TakeShifts(acks, id);
  }

  /** An awaited reply is gone once taken, and every other one stays. */
  lemma TakeRemovesOne(acks: seq<Ack>, id: string, ack: Ack)
    requires Distinct(acks)
    ensures ack in Take(acks, id) <==> ack in acks && ack.id != id
  {
    hide Take;
    var k, rest := Position(acks, id), Take(acks, id);
    TakeShifts(acks, id);
    if ack in acks && ack.id != id {
      var j :| 0 <= j < |acks| && acks[j] == ack;
      assert rest[if j < k then j else j - 1] == ack;
    }
  }

  lemma EmptyIsSound()
    ensures Sound(EMPTY)
  {
  }

  /** In every run pending entries are open calls under their own id, and at most 1024 optional replies are awaited. */
  lemma {:induction false} RunIsSound(log: seq<Step>)
    ensures Sound(After(log))
  {
    hide Next, Sound;
    EmptyIsSound();
    if log != [] {
      RunIsSound(log[..|log| - 1]);
      NextKeepsSound(After(log[..|log| - 1]), log[|log| - 1]);
    }
  }

  // ----- a call ends once -----

  /** What never changes about a call: its names, a settled future, and the outcome it returned. */
  predicate Continues(a: Call, b: Call) {
    && b.id == a.id && b.expected == a.expected
    && (a.future != Waiting ==> b.future == a.future)
    && (a.phase.Returned? ==> b == a)
  }

  lemma NextContinues(t: Table, step: Step, n: nat)
    requires Sound(t) && n < |t.calls|
    ensures n < |Next(t, step).calls| && Continues(t.calls[n], Next(t, step).calls[n])
  {
    hide Put, Take, Newest, Position;
  }

  /** Whatever follows, a call keeps its first answer and returns once. */
  lemma {:induction false} CallsEndOnce(log: seq<Step>, more: seq<Step>, n: nat)
    requires n < |After(log).calls|
    ensures n < |After(log + more).calls| && Continues(After(log).calls[n], After(log + more).calls[n])
  {
    hide Next, Sound;
    if more == [] {
      assert log + more == log;
    } else {
      var init := more[..|more| - 1];
      CallsEndOnce(log, init, n);
      RunIsSound(log + init);
      NextContinues(After(log + init), more[|more| - 1], n);
      assert (log + more)[..|log + more| - 1] == log + init;
    }
  }

  // ----- a reply is the call's own -----

  /** A frame with this id arrived after call n was made. */
  predicate Arrived(log: seq<Step>, n: nat, id: string, frame: string, payload: string) {
    exists i :: 0 <= i < |log| && log[i] == Deliver(Some(id), frame, payload) && n < |After(log[..i]).calls|
  }

  lemma ArrivedStays(log: seq<Step>, n: nat, id: string, frame: string, payload: string)
    requires log != [] && Arrived(log[..|log| - 1], n, id, frame, payload)
    ensures Arrived(log, n, id, frame, payload)
  {
    hide After;
    var before := log[..|log| - 1];
    var i :| 0 <= i < |before| && before[i] == Deliver(Some(id), frame, payload) && n < |After(before[..i]).calls|;
    assert log[..i] == before[..i] && log[i] == before[i];
  }

  lemma NextResolves(t: Table, step: Step, n: nat)
    requires Sound(t) && n < |Next(t, step).calls|
    ensures var call := Next(t, step).calls[n];
            && (n >= |t.calls| ==> call.future == Waiting && call.phase == Sending)
            && (n < |t.calls| && call.future.Resolved? && t.calls[n].future == Waiting ==>
                  step == Deliver(Some(call.id), call.expected, call.future.payload))
            && (n < |t.calls| && call.phase.Returned? && call.phase.outcome.Replied? && !t.calls[n].phase.Returned? ==>
                  call.future == t.calls[n].future == Resolved(call.phase.outcome.payload))
  {
    hide Put, Take, Newest, Position;
  }

  /** A call returns a payload only from a frame that carried its own id and the expected type and came after it was made. */
  lemma {:induction false} RepliesAreOwn(log: seq<Step>, n: nat)
    requires n < |After(log).calls|
    ensures var call := After(log).calls[n];
            && (call.future.Resolved? ==> Arrived(log, n, call.id, call.expected, call.future.payload))
            && (call.phase.Returned? && call.phase.outcome.Replied? ==> call.future == Resolved(call.phase.outcome.payload))
  {
    hide Next, Sound, Arrived;
    if log != [] {
      var before, step := log[..|log| - 1], log[|log| - 1];
      var t := After(before);
      RunIsSound(before);
      NextResolves(t, step, n);
      if n < |t.calls| {
        RepliesAreOwn(before, n);
        NextContinues(t, step, n);
        var was, call := t.calls[n], After(log).calls[n];
        if was.future.Resolved? {
          ArrivedStays(log, n, was.id, was.expected, was.future.payload);
        } else if call.future.Resolved? {
          ArrivesNow(log, n, call.id, call.expected, call.future.payload);
        }
      }
    }
  }

  lemma ArrivesNow(log: seq<Step>, n: nat, id: string, frame: string, payload: string)
    requires log != [] && n < |After(log[..|log| - 1]).calls| && log[|log| - 1] == Deliver(Some(id), frame, payload)
    ensures Arrived(log, n, id, frame, payload)
  {
    hide After;
    var i := |log| - 1;
    assert log[..i] == log[..|log| - 1] && log[i] == Deliver(Some(id), frame, payload);
  }

  // ----- with unique envelope ids, the first reply decides -----

  datatype Reply = Reply(frame: string, payload: string)

  predicate UniqueIds(t: Table) {
    forall m, n :: 0 <= m < n < |t.calls| ==> t.calls[m].id != t.calls[n].id
  }

  /** The first frame with the call's id that arrived while the call was open. */
  function FirstReply(log: seq<Step>, n: nat): Option<Reply> {
    if log == [] then None
    else
      var first, step, t := FirstReply(log[..|log| - 1], n), log[|log| - 1], After(log[..|log| - 1]);
      if first.Some? then first
      else if step.Deliver? && n < |t.calls| && step.to == Some(t.calls[n].id) && Open(t.calls[n])
      then Some(Reply(step.frame, step.payload))
      else None
  }

  /** How a call stands, given the first reply to it. */
  predicate Decided(t: Table, n: nat, first: Option<Reply>)
    requires n < |t.calls|
  {
    var call := t.calls[n];
    if Open(call) then
      if first.None? then call.future == Waiting && call.id in t.pending && t.pending[call.id] == n
      else call.future == if first.value.frame == call.expected then Resolved(first.value.payload) else WrongFrame(first.value.frame)
    else if call.phase.Leaving? then true
    else call.id !in t.pending && (!EmptyHanded(call.phase.outcome) ==> first.Some? && Answers(call, first.value))
  }

  predicate EmptyHanded(outcome: Outcome) {
    outcome == TimedOut || outcome == Abandoned || outcome == SendFailed
  }

  /** The call returned the payload of the expected frame, or raised with the type of any other. */
  predicate Answers(call: Call, reply: Reply)
    requires call.phase.Returned?
  {
    call.phase.outcome == if reply.frame == call.expected then Replied(reply.payload) else Unexpected(reply.frame)
  }

  lemma PrefixUnique(t: Table, step: Step)
    requires Sound(t) && UniqueIds(Next(t, step))
    ensures UniqueIds(t)
  {
    forall m, n | 0 <= m < n < |t.calls|
      ensures t.calls[m].id != t.calls[n].id
    {
      hide Next, Sound;
      NextContinues(t, step, m);
      NextContinues(t, step, n);
    }
  }

  lemma DeliveryDecides(t: Table, to: string, frame: string, payload: string, n: nat, first: Option<Reply>)
    requires Sound(t) && UniqueIds(t) && n < |t.calls| && Decided(t, n, first)
    ensures var call, b := t.calls[n], Delivered(t, to, frame, payload).0;
            && n < |b.calls|
            && Decided(b, n, if first.None? && to == call.id && Open(call) then Some(Reply(frame, payload)) else first)
  {
    hide Take, Position;
    assert forall m :: 0 <= m < |t.calls| && m != n ==> t.calls[m].id != t.calls[n].id;
  }

  lemma FinishedDecides(t: Table, m: nat, outcome: Outcome, n: nat, first: Option<Reply>)
    requires UniqueIds(t) && m < |t.calls| && n < |t.calls| && Decided(t, n, first) && !t.calls[m].phase.Returned?
    requires !EmptyHanded(outcome) ==> Open(t.calls[m]) && outcome == Result(t.calls[m].future) && t.calls[m].future != Waiting
    ensures n < |Finished(t, m, outcome).calls| && Decided(Finished(t, m, outcome), n, first)
  {
    assert m != n ==> t.calls[m].id != t.calls[n].id;
  }

  lemma BegunDecides(t: Table, id: string, expected: string, n: nat, first: Option<Reply>)
    requires UniqueIds(Next(t, Begin(id, expected))) && n < |t.calls| && Decided(t, n, first)
    ensures n < |Next(t, Begin(id, expected)).calls| && Decided(Next(t, Begin(id, expected)), n, first)
  {
    var b := Next(t, Begin(id, expected));
    assert b.calls[|t.calls|].id == id && b.calls[n].id != b.calls[|t.calls|].id;
  }

  lemma QuietStepDecides(t: Table, step: Step, n: nat, first: Option<Reply>)
    requires Sound(t) && UniqueIds(Next(t, step)) && UniqueIds(t) && n < |t.calls| && Decided(t, n, first) && !step.Deliver?
    ensures n < |Next(t, step).calls| && Decided(Next(t, step), n, first)
  {
    hide Put, Newest, Finished, UniqueIds;
    match step
    case Begin(id, expected) => BegunDecides(t, id, expected, n, first);
    case SendError(m) => if m < |t.calls| && Open(t.calls[m]) { FinishedDecides(t, m, SendFailed, n, first); }
    case Resume(m) =>
      if m < |t.calls| && Open(t.calls[m]) && t.calls[m].future != Waiting {
        FinishedDecides(t, m, Result(t.calls[m].future), n, first);
      }
    case Leave(m) =>
      if m < |t.calls| && t.calls[m].phase.Leaving? {
        assert LeavesEmptyHanded(t.calls[m]);
        FinishedDecides(t, m, t.calls[m].phase.why, n, first);
      }
    case _ =>
  }

  lemma NextDecides(t: Table, step: Step, n: nat, first: Option<Reply>)
    requires Sound(t) && UniqueIds(Next(t, step)) && UniqueIds(t) && n < |t.calls| && Decided(t, n, first)
    ensures n < |Next(t, step).calls|
    ensures var call := t.calls[n];
            Decided(Next(t, step), n,
                    if first.None? && step.Deliver? && step.to == Some(call.id) && Open(call)
                    then Some(Reply(step.frame, step.payload)) else first)
  {
    hide Sound, UniqueIds, Decided, Delivered, Finished, Interrupted;
    if step.Deliver? {
      if step.to.Some? {
        DeliveryDecides(t, step.to.value, step.frame, step.payload, n, first);
      }
    } else {
      QuietStepDecides(t, step, n, first);
    }
  }

  /**
   * When no two calls share an envelope id, a call that returns an answer returns the first frame that carried its id
   * while it was open: its payload, or its type as the error; and its id is no longer pending once it has returned.
   */
  lemma {:induction false} FirstReplyDecides(log: seq<Step>, n: nat)
    requires n < |After(log).calls| && UniqueIds(After(log))
    ensures Decided(After(log), n, FirstReply(log, n))
  {
    hide Next, Sound, Decided, UniqueIds;
    if log != [] {
      var before, step := log[..|log| - 1], log[|log| - 1];
      var t := After(before);
      RunIsSound(before);
      PrefixUnique(t, step);
      if n < |t.calls| {
        FirstReplyDecides(before, n);
        NextDecides(t, step, n, FirstReply(before, n));
      } else {
        NoReplyYet(before, n);
        NewCallIsOpen(t, step, n);
      }
    }
  }

  /** The step ends call n without an answer: its timer while it awaits, its caller going away, or a failed send. */
  predicate Excuses(t: Table, step: Step, n: nat, why: Outcome) {
    && n < |t.calls|
    && match why
       case TimedOut => step == Timeout(n) && t.calls[n].phase == Awaiting
       case Abandoned => step == Abandon(n) && Open(t.calls[n])
       case SendFailed => step == SendError(n) && t.calls[n].phase == Sending
       case _ => false
  }

  predicate Excused(log: seq<Step>, n: nat, why: Outcome) {
    exists i :: 0 <= i < |log| && Excuses(After(log[..i]), log[i], n, why)
  }

  lemma ExcuseStays(log: seq<Step>, m: nat, n: nat, why: Outcome)
    requires m < |log| && Excused(log[..m], n, why)
    ensures Excused(log[..m + 1], n, why)
  {
    hide After, Excuses;
    var i :| 0 <= i < m && Excuses(After(log[..m][..i]), log[..m][i], n, why);
    assert log[..m][..i] == log[..m + 1][..i] && log[..m + 1][i] == log[..m][i];
  }

  predicate EndsWith(call: Call, why: Outcome) {
    call.phase == Leaving(why) || call.phase == Returned(why)
  }

  lemma NextExcuses(t: Table, step: Step, n: nat, why: Outcome)
    requires Sound(t) && n < |Next(t, step).calls| && EmptyHanded(why) && EndsWith(Next(t, step).calls[n], why)
    ensures n < |t.calls| && (EndsWith(t.calls[n], why) || Excuses(t, step, n, why))
  {
    assert n < |t.calls| ==> LeavesEmptyHanded(t.calls[n]);
    hide Put, Take, Newest, Position, Sound;
  }

  /** A call ends without an answer only if its timer fired while it awaited, its caller went away, or its send failed. */
  lemma {:induction false} EveryExitIsExcused(log: seq<Step>, m: nat, n: nat, why: Outcome)
    requires m <= |log| && n < |After(log[..m]).calls|
    requires EmptyHanded(why) && EndsWith(After(log[..m]).calls[n], why)
    ensures Excused(log[..m], n, why)
    decreases m
  {
    if m > 0 {
      var t := After(log[..m - 1]);
      assert log[..m][..m - 1] == log[..m - 1];
      RunIsSound(log[..m - 1]);
      NextExcuses(t, log[m - 1], n, why);
      hide After, Next, Sound, Excuses;
      if EndsWith(t.calls[n], why) {
        EveryExitIsExcused(log, m - 1, n, why);
        hide Excused;
        ExcuseStays(log, m - 1, n, why);
      } else {
        assert log[..m][m - 1] == log[m - 1];
      }
    }
  }

  /**
   * With unique ids, every call that has returned either returned the first frame that carried its id while it was
   * open, its payload when it is of the expected type and its type as the error when it is not, or ended without an
   * answer for a reason that happened in the run.
   */
  lemma AnswerIsFirstReply(log: seq<Step>, n: nat)
    requires n < |After(log).calls| && UniqueIds(After(log)) && After(log).calls[n].phase.Returned?
    ensures var call, first := After(log).calls[n], FirstReply(log, n);
      || (call.phase.outcome in {TimedOut, Abandoned, SendFailed} && Excused(log, n, call.phase.outcome))
      || (first.Some? && first.value.frame == call.expected && call.phase.outcome == Replied(first.value.payload))
      || (first.Some? && first.value.frame != call.expected && call.phase.outcome == Unexpected(first.value.frame))
  {
    hide After, FirstReply, UniqueIds, Excused;
    FirstReplyDecides(log, n);
    var why := After(log).calls[n].phase.outcome;
    if EmptyHanded(why) {
      assert log[..|log|] == log;
      EveryExitIsExcused(log, |log|, n, why);
    }
  }

  lemma Pushed(log: seq<Step>, step: Step)
    ensures After(log + [step]) == Next(After(log), step)
  {
    hide Next;
    assert (log + [step])[..|log|] == log;
  }

  /** An awaiting call whose first reply has come returns it as soon as it is resumed, and one without a reply goes on waiting. */
  lemma ResumeReturnsFirstReply(log: seq<Step>, n: nat)
    requires n < |After(log).calls| && UniqueIds(After(log)) && After(log).calls[n].phase == Awaiting
    ensures var call, first, t := After(log).calls[n], FirstReply(log, n), After(log + [Resume(n)]);
      if first.None? then t == After(log)
      else n < |t.calls| && call.id !in t.pending
           && t.calls[n].phase == Returned(if first.value.frame == call.expected then Replied(first.value.payload)
                                           else Unexpected(first.value.frame))
  {
    hide FirstReply, UniqueIds, After;
    FirstReplyDecides(log, n);
    Pushed(log, Resume(n));
  }

  /** A call whose timer fires returns a timeout, whatever frame comes first to the loop, and nothing is left pending under its id. */
  lemma TimeoutReturns(log: seq<Step>, n: nat)
    requires n < |After(log).calls| && After(log).calls[n].phase == Awaiting
    ensures var t := After(log + [Timeout(n)] + [Leave(n)]);
      n < |t.calls| && t.calls[n].phase == Returned(TimedOut) && t.calls[n].id !in t.pending
  {
    Pushed(log, Timeout(n));
    Pushed(log + [Timeout(n)], Leave(n));
    hide After;
  }

  /** No future is left waiting by a call that has returned or whose timer fired. */
  predicate LeavesNoFuture(call: Call) {
    call.phase.Returned? || call.phase == Leaving(TimedOut) ==> call.future != Waiting
  }

  lemma NextLeavesNoFuture(t: Table, step: Step, n: nat)
    requires Sound(t) && n < |Next(t, step).calls| && (n < |t.calls| ==> LeavesNoFuture(t.calls[n]))
    ensures LeavesNoFuture(Next(t, step).calls[n])
  {
    hide Put, Take, Newest, Position, Sound;
  }

  /** In every run a call that has returned or timed out leaves no future behind for a late frame to resolve. */
  lemma {:induction false} NoFutureIsLeft(log: seq<Step>, n: nat)
    requires n < |After(log).calls|
    ensures LeavesNoFuture(After(log).calls[n])
  {
    hide Next, LeavesNoFuture, Sound;
    if log != [] {
      var before := log[..|log| - 1];
      RunIsSound(before);
      if n < |After(before).calls| {
        NoFutureIsLeft(before, n);
      }
      NextLeavesNoFuture(After(before), log[|log| - 1], n);
    }
  }

  /** A call whose caller goes away, or whose send fails, returns that and leaves nothing pending under its id. */
  lemma LeaversReturn(log: seq<Step>, n: nat)
    requires n < |After(log).calls| && Open(After(log).calls[n])
    ensures var t := After(log + [Abandon(n)] + [Leave(n)]);
      n < |t.calls| && t.calls[n].phase == Returned(Abandoned) && t.calls[n].id !in t.pending
    ensures After(log).calls[n].phase == Sending ==>
      var t := After(log + [SendError(n)]); n < |t.calls| && t.calls[n].phase == Returned(SendFailed) && t.calls[n].id !in t.pending
  {
    Pushed(log, Abandon(n));
    Pushed(log + [Abandon(n)], Leave(n));
    Pushed(log, SendError(n));
    hide After;
  }

  lemma UsedOnce(t: Table, ack: Ack, payload: string)
    requires Distinct(t.optional) && ack in t.optional && ack.id !in t.pending
    ensures var (taken, used) := Delivered(t, ack.id, ack.frame, payload);
      used && !Delivered(taken, ack.id, ack.frame, payload).1
  {
    TakeRemovesOne(t.optional, ack.id, ack);
    var k := Position(t.optional, ack.id);
    var j :| 0 <= j < |t.optional| && t.optional[j] == ack;
    assert j == k;
    var rest := Take(t.optional, ack.id);
    var again := Position(rest, ack.id);
    if again < |rest| {
      TakeRemovesOne(t.optional, ack.id, rest[again]);
    }
    hide Take, Position;
  }

  /** An optional reply that is awaited is used when it comes, and only once. */
  lemma AwaitedReplyIsUsedOnce(log: seq<Step>, ack: Ack, payload: string)
    requires ack.id !in After(log).pending
    ensures var t := After(log + [Expect(ack)]);
      var (taken, used) := Delivered(t, ack.id, ack.frame, payload);
      && t == After(log).(optional := t.optional) && |t.optional| <= MAX_OPTIONAL && ack in t.optional
      && used && !Delivered(taken, ack.id, ack.frame, payload).1
  {
    hide After, Put, Newest, Delivered, Distinct;
    Pushed(log, Expect(ack));
    RunIsSound(log);
    PutKeepsDistinct(After(log).optional, ack);
    UsedOnce(After(log + [Expect(ack)]), ack, payload);
  }

  lemma BegunAndSent(t: Table, id: string, expected: string)
    ensures Next(Next(t, Begin(id, expected)), Sent(|t.calls|))
            == t.(pending := t.pending[id := |t.calls|], calls := t.calls + [Call(id, expected, Waiting, Awaiting)])
  {
  }

  lemma AnsweredAndResumed(t: Table, n: nat, frame: string, payload: string)
    requires n < |t.calls| && t.calls[n].phase == Awaiting && t.calls[n].future == Waiting
    requires t.calls[n].id in t.pending && t.pending[t.calls[n].id] == n
    ensures var id, s := t.calls[n].id, Next(Next(t, Deliver(Some(t.calls[n].id), frame, payload)), Resume(n));
      && |s.calls| == |t.calls| && id !in s.pending
      && s.calls[n].phase == Returned(if frame == t.calls[n].expected then Replied(payload) else Unexpected(frame))
      && (forall m :: 0 <= m < |t.calls| && m != n ==> s.calls[m] == t.calls[m])
  {
    var d := Next(t, Deliver(Some(t.calls[n].id), frame, payload));
    assert d == t.(pending := t.pending - {t.calls[n].id},
                   calls := t.calls[n := t.calls[n].(future := if frame == t.calls[n].expected then Resolved(payload) else WrongFrame(frame))]);
  }

  /** A request made under a new id, sent and answered returns the payload of the expected frame and the type of any other. */
  lemma RequestIsAnswered(log: seq<Step>, id: string, expected: string, frame: string, payload: string)
    ensures var n := |After(log).calls|;
      var t := After(log + [Begin(id, expected)] + [Sent(n)] + [Deliver(Some(id), frame, payload)] + [Resume(n)]);
      && |t.calls| == n + 1 && id !in t.pending
      && t.calls[n].phase == Returned(if frame == expected then Replied(payload) else Unexpected(frame))
      && (forall m :: 0 <= m < n ==> t.calls[m] == After(log).calls[m])
  {
    hide After, Next;
    var n := |After(log).calls|;
    var begun := log + [Begin(id, expected)];
    Pushed(log, Begin(id, expected));
    Pushed(begun, Sent(n));
    Pushed(begun + [Sent(n)], Deliver(Some(id), frame, payload));
    Pushed(begun + [Sent(n)] + [Deliver(Some(id), frame, payload)], Resume(n));
    BegunAndSent(After(log), id, expected);
    AnsweredAndResumed(After(begun + [Sent(n)]), n, frame, payload);
  }

  lemma {:induction false} NoReplyYet(log: seq<Step>, n: nat)
    requires n >= |After(log).calls|
    ensures FirstReply(log, n) == None
  {
    hide Next;
    if log != [] {
      CallsGrow(After(log[..|log| - 1]), log[|log| - 1]);
      NoReplyYet(log[..|log| - 1], n);
    }
  }

  lemma CallsGrow(t: Table, step: Step)
    ensures |t.calls| <= |Next(t, step).calls| <= |t.calls| + 1
  {
    hide Put, Take, Newest, Position;
  }

  lemma NewCallIsOpen(t: Table, step: Step, n: nat)
    requires |t.calls| <= n < |Next(t, step).calls|
    ensures Decided(Next(t, step), n, None) && !step.Deliver?
  {
    hide Put, Take, Newest, Position;
  }
}
