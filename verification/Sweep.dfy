/**
 The earliest-window sweep over one server's busy intervals. The sweep keeps a set of
 cards it believes free; every result here is about what that set says of all instants.
 */
module Sweep {
  import opened Prelude
  import opened Sorting
  import opened Reservations

  /** A half-open busy stretch of one card. */
  datatype Interval = Interval(from: int, until: int)

  datatype Event = Event(time: int, delta: int, gpu: nat)

  /** One server's question: its cards, their busy stretches, the horizon, how many cards and how long. */
  datatype Ask = Ask(
    gpus: seq<nat>,
    busy: map<nat, seq<Interval>>,
    from: int,
    until: int,
    count: nat,
    duration: int
  )

  function BusyOf(ask: Ask, gpu: nat): seq<Interval> {
    if gpu in ask.busy then ask.busy[gpu] else []
  }

  // ------------------------------------------------------------------------------ the code

  function IntervalEvents(gpu: nat, busy: seq<Interval>): seq<Event> {
    if busy == [] then []
    else
      var last := busy[|busy| - 1];
      IntervalEvents(gpu, busy[..|busy| - 1]) + [Event(last.from, -1, gpu), Event(last.until, 1, gpu)]
  }

  function EventsOf(ask: Ask, gpus: seq<nat>): seq<Event> {
    if gpus == [] then []
    else
      var gpu := gpus[|gpus| - 1];
      EventsOf(ask, gpus[..|gpus| - 1]) + IntervalEvents(gpu, BusyOf(ask, gpu))
  }

  /** By time; at one instant leaving the free set comes before entering it. */
  predicate EventLe(a: Event, b: Event) {
    a.time < b.time || (a.time == b.time && a.delta <= b.delta)
  }

  function Timeline(ask: Ask): seq<Event> {
    Sort(EventsOf(ask, ask.gpus), EventLe)
  }

  /** Does one of the card's stretches cover the instant? */
  predicate BusyAt(ask: Ask, gpu: nat, t: int) {
    exists i :: 0 <= i < |BusyOf(ask, gpu)| && BusyOf(ask, gpu)[i].from <= t < BusyOf(ask, gpu)[i].until
  }

  /** The sweep's variables: `free_set`, `candidate_start`, and the start it returned with. */
  datatype State = State(free: set<nat>, start: Option<int>, found: Option<int>)

  function Initial(ask: Ask): State {
    var free := set g | g in ask.gpus && !BusyAt(ask, g, ask.from);
    State(free, if |free| >= ask.count then Some(ask.from) else None, None)
  }

  function Apply(ask: Ask, st: State, e: Event): State {
    var free := if e.delta == -1 then st.free - {e.gpu} else st.free + {e.gpu};
    if st.start.None? && |free| >= ask.count then State(free, Some(e.time), None)
    else if st.start.Some? && |free| < ask.count then
      if e.time - st.start.value >= ask.duration then State(free, st.start, st.start)
      else State(free, None, None)
    else State(free, st.start, None)
  }

  /** The loop from event `k` on: it stops when it returns, past the horizon, or at the end. */
  function Walk(ask: Ask, events: seq<Event>, k: nat, st: State): State
    requires k <= |events|
    decreases |events| - k
  {
    if k == |events| then st
    else
      var next := Apply(ask, st, events[k]);
      if next.found.Some? || events[k].time >= ask.until then next else Walk(ask, events, k + 1, next)
  }

  lemma WalkStep(ask: Ask, events: seq<Event>, k: nat, st: State)
    requires k < |events|
    ensures var next := Apply(ask, st, events[k]);
            Walk(ask, events, k, st)
            == if next.found.Some? || events[k].time >= ask.until then next else Walk(ask, events, k + 1, next)
  {
  }

  function Accept(ask: Ask, st: State): Option<int> {
    if st.found.Some? then st.found
    else if st.start.Some? && ask.until - st.start.value >= ask.duration then st.start
    else None
  }

  function EarliestStart(ask: Ask): Option<int> {
    Accept(ask, Walk(ask, Timeline(ask), 0, Initial(ask)))
  }

  /** `_pick_first_n` */
  function FirstFree(ask: Ask, gpus: seq<nat>, t: int): seq<nat> {
    if gpus == [] then []
    else
      var picked, gpu := FirstFree(ask, gpus[..|gpus| - 1], t), gpus[|gpus| - 1];
      if |picked| == ask.count || BusyAt(ask, gpu, t) then picked else picked + [gpu]
  }

  // --------------------------------------------------------------------- what it is about

  /** What the caller passes: clipped, non-empty stretches, distinct cards, a real request. */
  ghost predicate Proper(ask: Ask) {
    && ask.count >= 1 && ask.duration >= 1 && ask.from <= ask.until
    && (forall i, j :: 0 <= i < j < |ask.gpus| ==> ask.gpus[i] != ask.gpus[j])
    && forall g, iv :: g in ask.gpus && iv in BusyOf(ask, g) ==> ask.from <= iv.from < iv.until <= ask.until
  }

  ghost function FreeAt(ask: Ask, t: int): set<nat> {
    set g | g in ask.gpus && !BusyAt(ask, g, t)
  }

  ghost function FreeThroughout(ask: Ask, s: int): set<nat> {
    set g | g in ask.gpus && forall t :: s <= t < s + ask.duration ==> !BusyAt(ask, g, t)
  }

  /** Some `count` cards are all free throughout a window that starts at `s` inside the horizon. */
  ghost predicate Feasible(ask: Ask, s: int) {
    ask.from <= s && s + ask.duration <= ask.until && |FreeThroughout(ask, s)| >= ask.count
  }

  /** At every instant of the window starting at `c`, inside the horizon, at least `count` cards are free. */
  ghost predicate Covered(ask: Ask, c: int) {
    && ask.from <= c && c + ask.duration <= ask.until
    && forall t :: c <= t < c + ask.duration ==> |FreeAt(ask, t)| >= ask.count
  }

  /** No stretch of a card ends at an instant that another stretch of it covers. */
  ghost predicate NoReentry(ask: Ask) {
    forall g, iv, other :: g in ask.gpus && iv in BusyOf(ask, g) && other in BusyOf(ask, g) ==>
      !(other.from <= iv.until < other.until)
  }

  // ----------------------------------------------------------------------------- the events

  /** The timeline holds exactly the two boundaries of every stretch, in order. */
  ghost predicate Faithful(ask: Ask, events: seq<Event>) {
    && Ordered(events, EventLe)
    && (forall e :: e in events ==> Boundary(ask, e))
    && forall g, iv :: g in ask.gpus && iv in BusyOf(ask, g) ==>
         Event(iv.from, -1, g) in events && Event(iv.until, 1, g) in events
  }

  ghost predicate Boundary(ask: Ask, e: Event) {
    && e.gpu in ask.gpus
    && exists iv :: iv in BusyOf(ask, e.gpu) && (e == Event(iv.from, -1, e.gpu) || e == Event(iv.until, 1, e.gpu))
  }

  lemma {:induction false} IntervalEventsFaithful(gpu: nat, busy: seq<Interval>)
    ensures forall e :: e in IntervalEvents(gpu, busy) <==>
                        exists iv :: iv in busy && (e == Event(iv.from, -1, gpu) || e == Event(iv.until, 1, gpu))
  {
    if busy != [] {
      var n := |busy| - 1;
      IntervalEventsFaithful(gpu, busy[..n]);
      assert forall iv :: iv in busy <==> iv in busy[..n] || iv == busy[n];
    }
  }

  lemma {:induction false} EventsFaithful(ask: Ask, gpus: seq<nat>)
    ensures forall e :: e in EventsOf(ask, gpus) <==> e.gpu in gpus && e in IntervalEvents(e.gpu, BusyOf(ask, e.gpu))
  {
    if gpus != [] {
      var n := |gpus| - 1;
      EventsFaithful(ask, gpus[..n]);
      IntervalEventsFaithful(gpus[n], BusyOf(ask, gpus[n]));
      assert forall g :: g in gpus <==> g in gpus[..n] || g == gpus[n];
    }
  }

  lemma TimelineOrdered(ask: Ask)
    ensures Ordered(Timeline(ask), EventLe)
    ensures forall e :: e in Timeline(ask) <==> e in EventsOf(ask, ask.gpus)
  {
    hide EventsOf;
    var events := EventsOf(ask, ask.gpus);
    SortSorts(events, EventLe);
    assert forall e :: e in Timeline(ask) <==> e in multiset(Timeline(ask));
    assert forall e :: e in events <==> e in multiset(events);
  }

  lemma EventIsBoundary(ask: Ask, e: Event)
    requires e in EventsOf(ask, ask.gpus)
    ensures Boundary(ask, e)
  {
    EventsFaithful(ask, ask.gpus);
    IntervalEventsFaithful(e.gpu, BusyOf(ask, e.gpu));
  }

  lemma BoundaryIsEvent(ask: Ask, g: nat, iv: Interval)
    requires g in ask.gpus && iv in BusyOf(ask, g)
    ensures Event(iv.from, -1, g) in EventsOf(ask, ask.gpus) && Event(iv.until, 1, g) in EventsOf(ask, ask.gpus)
  {
    EventsFaithful(ask, ask.gpus);
    IntervalEventsFaithful(g, BusyOf(ask, g));
  }

  lemma TimelineFaithful(ask: Ask)
    ensures Faithful(ask, Timeline(ask))
  {
    hide EventsOf, Timeline, Boundary;
    TimelineOrdered(ask);
    forall e | e in Timeline(ask)
      ensures Boundary(ask, e)
    {
      EventIsBoundary(ask, e);
    }
    forall g, iv | g in ask.gpus && iv in BusyOf(ask, g)
      ensures Event(iv.from, -1, g) in Timeline(ask) && Event(iv.until, 1, g) in Timeline(ask)
    {
      BoundaryIsEvent(ask, g, iv);
    }
  }

  /** The instant the sweep has reached before event `k`. */
  function Cursor(ask: Ask, events: seq<Event>, k: nat): int
    requires k <= |events|
  {
    if k == 0 then ask.from else events[k - 1].time
  }

  // --------------------------------------------------------------- what the free set believes

  /** The card is in the free set before event k: every stretch seen to begin is answered by an end seen no earlier than that. */
  ghost predicate InFree(ask: Ask, events: seq<Event>, k: nat, g: nat)
    requires k <= |events|
  {
    forall iv :: iv in BusyOf(ask, g) && StartSeen(ask, events, k, g, iv) ==> Answered(ask, events, k, g, iv)
  }

  /** The initial set already leaves out the stretches that begin as the horizon opens. */
  ghost predicate StartSeen(ask: Ask, events: seq<Event>, k: nat, g: nat, iv: Interval)
    requires k <= |events|
  {
    iv.from == ask.from || Event(iv.from, -1, g) in events[..k]
  }

  ghost predicate Answered(ask: Ask, events: seq<Event>, k: nat, g: nat, iv: Interval)
    requires k <= |events|
  {
    exists e :: e in BusyOf(ask, g) && iv.from <= e.until && Event(e.until, 1, g) in events[..k]
  }

  ghost function FreeSet(ask: Ask, events: seq<Event>, k: nat): set<nat>
    requires k <= |events|
  {
    set g | g in ask.gpus && InFree(ask, events, k, g)
  }

  /** What the sweep believes of a card at an instant: every stretch begun by then is followed by some end by then. */
  ghost predicate Believed(ask: Ask, g: nat, t: int) {
    forall iv :: iv in BusyOf(ask, g) && iv.from <= t ==> EndedSince(ask, g, iv.from, t)
  }

  ghost predicate EndedSince(ask: Ask, g: nat, from: int, t: int) {
    exists e :: e in BusyOf(ask, g) && from <= e.until <= t
  }

  predicate StartsAt(ask: Ask, g: nat, t: int) {
    exists i :: 0 <= i < |BusyOf(ask, g)| && BusyOf(ask, g)[i].from == t
  }

  ghost function BelievedAt(ask: Ask, t: int): set<nat> {
    set g | g in ask.gpus && Believed(ask, g, t)
  }

  /** At an instant with events the starts come first: this is what is left before any end is seen. */
  ghost function Dip(ask: Ask, t: int): set<nat> {
    set g | g in ask.gpus && Believed(ask, g, t - 1) && !StartsAt(ask, g, t)
  }

  /** Enough cards are believed free all along, between the starts and the ends of one instant too. */
  ghost predicate BelievedWindow(ask: Ask, c: int) {
    && ask.from <= c && c + ask.duration <= ask.until
    && (forall t :: c <= t < c + ask.duration ==> |BelievedAt(ask, t)| >= ask.count)
    && (forall t :: c < t < c + ask.duration ==> |Dip(ask, t)| >= ask.count)
  }

  /** A believed card is free, or an end inside another of its stretches made the sweep take it for free. */
  ghost predicate Reentered(ask: Ask, g: nat, t: int) {
    exists iv, e :: iv in BusyOf(ask, g) && e in BusyOf(ask, g) && iv.from <= e.until <= t < iv.until && Believed(ask, g, t)
  }

  lemma FreeIsBelieved(ask: Ask, g: nat, t: int)
    requires Proper(ask) && g in ask.gpus && !BusyAt(ask, g, t)
    ensures Believed(ask, g, t)
  {
    forall iv | iv in BusyOf(ask, g) && iv.from <= t
      ensures EndedSince(ask, g, iv.from, t)
    {
      var i :| 0 <= i < |BusyOf(ask, g)| && BusyOf(ask, g)[i] == iv;
      assert iv.from <= iv.until <= t;
    }
  }

  lemma BelievedBusyReenters(ask: Ask, g: nat, t: int)
    requires BusyAt(ask, g, t) && Believed(ask, g, t)
    ensures Reentered(ask, g, t)
  {
    var i :| 0 <= i < |BusyOf(ask, g)| && BusyOf(ask, g)[i].from <= t < BusyOf(ask, g)[i].until;
    var iv := BusyOf(ask, g)[i];
    assert EndedSince(ask, g, iv.from, t);
    var e :| e in BusyOf(ask, g) && iv.from <= e.until <= t;
  }

  lemma ReenteredIsBusy(ask: Ask, g: nat, t: int)
    requires Reentered(ask, g, t)
    ensures BusyAt(ask, g, t) && Believed(ask, g, t)
  {
    hide Believed;
    var iv, e :| iv in BusyOf(ask, g) && e in BusyOf(ask, g) && iv.from <= e.until <= t < iv.until && Believed(ask, g, t);
    BusyAround(ask, g, iv, t);
  }

  /** What the sweep believes is the truth, plus exactly the re-entered cards. */
  lemma BeliefIsTruthOrReentry(ask: Ask, g: nat, t: int)
    requires Proper(ask) && g in ask.gpus
    ensures Believed(ask, g, t) <==> !BusyAt(ask, g, t) || Reentered(ask, g, t)
    ensures Reentered(ask, g, t) ==> BusyAt(ask, g, t)
  {
    hide Believed, Reentered, Proper, BusyAt;
    if Reentered(ask, g, t) {
      ReenteredIsBusy(ask, g, t);
    }
    if !BusyAt(ask, g, t) {
      FreeIsBelieved(ask, g, t);
    } else if Believed(ask, g, t) {
      BelievedBusyReenters(ask, g, t);
    }
  }

  lemma BusyAround(ask: Ask, g: nat, iv: Interval, t: int)
    requires iv in BusyOf(ask, g) && iv.from <= t < iv.until
    ensures BusyAt(ask, g, t)
  {
  }

  lemma SubsetSize(a: set<nat>, b: set<nat>)
    requires a <= b
    ensures |a| <= |b|
  {
    assert b == a + (b - a);
  }

  // ------------------------------------------------------------------ the free set, event by event

  lemma CursorAdvances(ask: Ask, events: seq<Event>, k: nat)
    requires Proper(ask) && Faithful(ask, events) && k < |events|
    ensures ask.from <= Cursor(ask, events, k) <= events[k].time <= ask.until && events[k].gpu in ask.gpus
  {
    assert events[k] in events && Boundary(ask, events[k]);
    if k > 0 {
      assert events[k - 1] in events && Boundary(ask, events[k - 1]);
      assert EventLe(events[k - 1], events[k]);
    }
  }

  /** What has been seen is in order with what comes next. */
  lemma SeenEvent(events: seq<Event>, k: nat, e: Event)
    requires Ordered(events, EventLe) && k < |events| && e in events[..k]
    ensures EventLe(e, events[k])
  {
    var q :| 0 <= q < k && events[q] == e;
  }

  lemma EarlierEvent(events: seq<Event>, k: nat, e: Event)
    requires Ordered(events, EventLe) && k <= |events| && e in events
    requires k < |events| ==> !EventLe(events[k], e)
    ensures e in events[..k]
  {
    forall j | k <= j < |events|
      ensures events[j] != e
    {
      assert j == k || EventLe(events[k], events[j]);
    }
    var q :| 0 <= q < |events| && events[q] == e;
    assert events[..k][q] == e;
  }

  lemma SeenLonger(events: seq<Event>, k: nat, e: Event)
    requires k < |events|
    ensures e in events[..k + 1] <==> e in events[..k] || e == events[k]
  {
    assert events[..k + 1] == events[..k] + [events[k]];
  }

  lemma SeenBeforeCursor(ask: Ask, events: seq<Event>, k: nat, e: Event)
    requires Ordered(events, EventLe) && k <= |events| && e in events[..k]
    ensures k > 0 && e.time <= Cursor(ask, events, k)
    ensures e != events[k - 1] ==> EventLe(e, events[k - 1])
  {
    assert k > 0;
    SeenLonger(events, k - 1, e);
    if e != events[k - 1] {
      SeenEvent(events, k - 1, e);
    }
  }

  lemma InitialFreeSet(ask: Ask, events: seq<Event>)
    requires Proper(ask)
    ensures Initial(ask).free == FreeSet(ask, events, 0)
  {
    assert events[..0] == [];
    forall g | g in ask.gpus
      ensures BusyAt(ask, g, ask.from) <==> !InFree(ask, events, 0, g)
    {
      if BusyAt(ask, g, ask.from) {
        var i :| 0 <= i < |BusyOf(ask, g)| && BusyOf(ask, g)[i].from <= ask.from < BusyOf(ask, g)[i].until;
        assert BusyOf(ask, g)[i] in BusyOf(ask, g) && StartSeen(ask, events, 0, g, BusyOf(ask, g)[i]);
      } else {
        forall iv | iv in BusyOf(ask, g)
          ensures !StartSeen(ask, events, 0, g, iv)
        {
          if iv.from == ask.from {
            BusyAround(ask, g, iv, ask.from);
          }
        }
      }
    }
  }

  /** Events of other cards change nothing. */
  lemma OthersStay(ask: Ask, events: seq<Event>, k: nat, g: nat)
    requires k < |events| && g != events[k].gpu
    ensures InFree(ask, events, k + 1, g) <==> InFree(ask, events, k, g)
  {
    assert events[..k + 1] == events[..k] + [events[k]];
    assert forall iv :: StartSeen(ask, events, k + 1, g, iv) <==> StartSeen(ask, events, k, g, iv);
    assert forall iv :: Answered(ask, events, k + 1, g, iv) <==> Answered(ask, events, k, g, iv);
  }

  /** A start takes the card out: no end of it seen so far is as late. */
  lemma StartTakesOut(ask: Ask, events: seq<Event>, k: nat)
    requires Proper(ask) && Faithful(ask, events) && k < |events| && events[k].delta == -1
    ensures !InFree(ask, events, k + 1, events[k].gpu)
  {
    var e, g := events[k], events[k].gpu;
    assert e in events && Boundary(ask, e) && Ordered(events, EventLe);
    hide Proper, Faithful, Ordered;
    var iv :| iv in BusyOf(ask, g) && e == Event(iv.from, -1, g);
    SeenLonger(events, k, e);
    assert StartSeen(ask, events, k + 1, g, iv);
    forall end | end in BusyOf(ask, g) && iv.from <= end.until
      ensures Event(end.until, 1, g) !in events[..k + 1]
    {
      SeenLonger(events, k, Event(end.until, 1, g));
      if Event(end.until, 1, g) in events[..k] {
        SeenEvent(events, k, Event(end.until, 1, g));
      }
    }
  }

  /** An end puts it in: no stretch of it seen to begin began later. */
  lemma EndPutsIn(ask: Ask, events: seq<Event>, k: nat)
    requires Proper(ask) && Faithful(ask, events) && k < |events| && events[k].delta != -1
    ensures InFree(ask, events, k + 1, events[k].gpu)
  {
    var e, g := events[k], events[k].gpu;
    assert e in events && Boundary(ask, e) && Ordered(events, EventLe);
    var end :| end in BusyOf(ask, g) && e == Event(end.until, 1, g);
    assert ask.from <= end.until;
    hide Proper, Faithful, Ordered;
    SeenLonger(events, k, e);
    forall iv | iv in BusyOf(ask, g) && StartSeen(ask, events, k + 1, g, iv)
      ensures Answered(ask, events, k + 1, g, iv)
    {
      SeenLonger(events, k, Event(iv.from, -1, g));
      if Event(iv.from, -1, g) in events[..k] {
        SeenEvent(events, k, Event(iv.from, -1, g));
      }
      assert iv.from <= end.until;
    }
  }

  lemma StepFreeSet(ask: Ask, events: seq<Event>, k: nat, st: State)
    requires Proper(ask) && Faithful(ask, events) && k < |events| && st.free == FreeSet(ask, events, k)
    ensures Apply(ask, st, events[k]).free == FreeSet(ask, events, k + 1)
  {
    hide Proper, Faithful, InFree;
    var h := events[k].gpu;
    CursorAdvances(ask, events, k);
    if events[k].delta == -1 {
      StartTakesOut(ask, events, k);
    } else {
      EndPutsIn(ask, events, k);
    }
    assert Apply(ask, st, events[k]).free == if events[k].delta == -1 then st.free - {h} else st.free + {h};
    hide Apply;
    forall g | g in ask.gpus && g != h
      ensures InFree(ask, events, k + 1, g) <==> InFree(ask, events, k, g)
    {
      OthersStay(ask, events, k, g);
    }
  }

  /** Between two instants with events the free set is exactly what is believed. */
  lemma SettledIsBelief(ask: Ask, events: seq<Event>, k: nat, t: int)
    requires Proper(ask) && Faithful(ask, events) && k <= |events|
    requires ask.from <= t && Cursor(ask, events, k) <= t && (k < |events| ==> t < events[k].time)
    ensures FreeSet(ask, events, k) == BelievedAt(ask, t)
  {
    forall g | g in ask.gpus
      ensures InFree(ask, events, k, g) <==> Believed(ask, g, t)
    {
      forall iv | iv in BusyOf(ask, g)
        ensures StartSeen(ask, events, k, g, iv) <==> iv.from <= t
        ensures Event(iv.until, 1, g) in events[..k] <==> iv.until <= t
      {
        SeenUpTo(ask, events, k, t, Event(iv.from, -1, g));
        SeenUpTo(ask, events, k, t, Event(iv.until, 1, g));
      }
      hide Proper, Faithful, StartSeen;
      AnswersAgree(ask, events, k, t, g);
    }
  }

  lemma SeenUpTo(ask: Ask, events: seq<Event>, k: nat, t: int, e: Event)
    requires Ordered(events, EventLe) && k <= |events| && e in events
    requires Cursor(ask, events, k) <= t && (k < |events| ==> t < events[k].time)
    ensures e in events[..k] <==> e.time <= t
  {
    if e in events[..k] {
      SeenBeforeCursor(ask, events, k, e);
    } else if e.time <= t {
      EarlierEvent(events, k, e);
    }
  }

  lemma AnswersAgree(ask: Ask, events: seq<Event>, k: nat, t: int, g: nat)
    requires k <= |events|
    requires forall iv :: iv in BusyOf(ask, g) ==>
               (StartSeen(ask, events, k, g, iv) <==> iv.from <= t) && (Event(iv.until, 1, g) in events[..k] <==> iv.until <= t)
    ensures InFree(ask, events, k, g) <==> Believed(ask, g, t)
  {
    forall iv | iv in BusyOf(ask, g)
      ensures Answered(ask, events, k, g, iv) <==> EndedSince(ask, g, iv.from, t)
    {
    }
    hide Answered, EndedSince, StartSeen;
  }

  /** Before the first end of an instant the free set has exactly the dip of that instant. */
  lemma DipIsSeen(ask: Ask, events: seq<Event>, k: nat)
    requires Proper(ask) && Faithful(ask, events) && 0 < k <= |events|
    requires events[k - 1].delta == -1 && ask.from < events[k - 1].time
    requires k < |events| ==> events[k].time > events[k - 1].time || events[k].delta == 1
    ensures FreeSet(ask, events, k) == Dip(ask, events[k - 1].time)
  {
    var t := events[k - 1].time;
    hide Proper, Faithful, InFree, Believed, StartsAt;
    forall g | g in ask.gpus
      ensures InFree(ask, events, k, g) <==> Believed(ask, g, t - 1) && !StartsAt(ask, g, t)
    {
      SeenInDip(ask, events, k, g);
      DipAgrees(ask, events, k, t, g);
    }
  }

  lemma SeenInDip(ask: Ask, events: seq<Event>, k: nat, g: nat)
    requires Faithful(ask, events) && 0 < k <= |events| && g in ask.gpus
    requires events[k - 1].delta == -1 && ask.from < events[k - 1].time
    requires k < |events| ==> events[k].time > events[k - 1].time || events[k].delta == 1
    ensures forall iv :: iv in BusyOf(ask, g) ==>
              && (StartSeen(ask, events, k, g, iv) <==> iv.from <= events[k - 1].time)
              && (Event(iv.until, 1, g) in events[..k] <==> iv.until <= events[k - 1].time - 1)
  {
    assert Ordered(events, EventLe) && (k < |events| ==> EventLe(events[k - 1], events[k]));
    hide Ordered;
    forall iv | iv in BusyOf(ask, g)
      ensures StartSeen(ask, events, k, g, iv) <==> iv.from <= events[k - 1].time
      ensures Event(iv.until, 1, g) in events[..k] <==> iv.until <= events[k - 1].time - 1
    {
      assert Event(iv.from, -1, g) in events && Event(iv.until, 1, g) in events;
      StartsSeenInDip(ask, events, k, Event(iv.from, -1, g));
      EndsSeenInDip(ask, events, k, Event(iv.until, 1, g));
    }
  }

  lemma StartsSeenInDip(ask: Ask, events: seq<Event>, k: nat, e: Event)
    requires Ordered(events, EventLe) && 0 < k <= |events| && e in events && e.delta == -1
    requires k < |events| ==> events[k].time > events[k - 1].time || events[k].delta == 1
    requires k < |events| ==> EventLe(events[k - 1], events[k])
    ensures e in events[..k] <==> e.time <= events[k - 1].time
  {
    if e in events[..k] {
      SeenBeforeCursor(ask, events, k, e);
    }
    if e.time <= events[k - 1].time {
      EarlierEvent(events, k, e);
    }
  }

  lemma EndsSeenInDip(ask: Ask, events: seq<Event>, k: nat, e: Event)
    requires Ordered(events, EventLe) && 0 < k <= |events| && e in events && e.delta == 1 && events[k - 1].delta == -1
    ensures e in events[..k] <==> e.time < events[k - 1].time
  {
    if e in events[..k] {
      SeenBeforeCursor(ask, events, k, e);
    }
    if e.time < events[k - 1].time {
      EarlierEvent(events, k - 1, e);
      SeenLonger(events, k - 1, e);
    }
  }

  lemma DipAgrees(ask: Ask, events: seq<Event>, k: nat, t: int, g: nat)
    requires k <= |events|
    requires forall iv :: iv in BusyOf(ask, g) ==>
               (StartSeen(ask, events, k, g, iv) <==> iv.from <= t) && (Event(iv.until, 1, g) in events[..k] <==> iv.until <= t - 1)
    ensures InFree(ask, events, k, g) <==> Believed(ask, g, t - 1) && !StartsAt(ask, g, t)
  {
    forall iv | iv in BusyOf(ask, g)
      ensures Answered(ask, events, k, g, iv) <==> EndedSince(ask, g, iv.from, t - 1)
      ensures iv.from == t ==> !EndedSince(ask, g, iv.from, t - 1)
    {
    }
    hide Answered, EndedSince, StartSeen;
    if StartsAt(ask, g, t) {
      var i :| 0 <= i < |BusyOf(ask, g)| && BusyOf(ask, g)[i].from == t;
      assert BusyOf(ask, g)[i] in BusyOf(ask, g);
    }
    if Believed(ask, g, t - 1) && !StartsAt(ask, g, t) {
      forall iv | iv in BusyOf(ask, g) && iv.from <= t
        ensures EndedSince(ask, g, iv.from, t - 1)
      {
        var i :| 0 <= i < |BusyOf(ask, g)| && BusyOf(ask, g)[i] == iv;
        assert iv.from != t;
      }
    }
  }

  /** While an instant's events go by, the free set never loses more than the dip. */
  lemma DipIsBelow(ask: Ask, events: seq<Event>, k: nat)
    requires Proper(ask) && Faithful(ask, events) && 0 < k <= |events| && ask.from < events[k - 1].time
    ensures Dip(ask, events[k - 1].time) <= FreeSet(ask, events, k)
  {
    hide Proper, Faithful, InFree, Believed, StartsAt;
    forall g | g in Dip(ask, events[k - 1].time)
      ensures InFree(ask, events, k, g)
    {
      DipStaysFree(ask, events, k, g);
    }
  }

  lemma DipStaysFree(ask: Ask, events: seq<Event>, k: nat, g: nat)
    requires Proper(ask) && Faithful(ask, events) && 0 < k <= |events| && ask.from < events[k - 1].time
    requires g in ask.gpus && Believed(ask, g, events[k - 1].time - 1) && !StartsAt(ask, g, events[k - 1].time)
    ensures InFree(ask, events, k, g)
  {
    hide Proper, Faithful, Believed, StartsAt, Answered;
    forall iv | iv in BusyOf(ask, g) && StartSeen(ask, events, k, g, iv)
      ensures Answered(ask, events, k, g, iv)
    {
      SeenStartIsEarly(ask, events, k, g, iv);
      BelievedIsEnded(ask, g, iv, events[k - 1].time);
      EndIsSeen(ask, events, k, g, iv);
    }
  }

  lemma SeenStartIsEarly(ask: Ask, events: seq<Event>, k: nat, g: nat, iv: Interval)
    requires Faithful(ask, events) && 0 < k <= |events| && ask.from < events[k - 1].time && StartSeen(ask, events, k, g, iv)
    ensures iv.from <= events[k - 1].time
  {
    hide Boundary, Ordered;
    if Event(iv.from, -1, g) in events[..k] {
      SeenBeforeCursor(ask, events, k, Event(iv.from, -1, g));
    }
  }

  lemma BelievedIsEnded(ask: Ask, g: nat, iv: Interval, t: int)
    requires Believed(ask, g, t - 1) && !StartsAt(ask, g, t) && iv in BusyOf(ask, g) && iv.from <= t
    ensures EndedSince(ask, g, iv.from, t - 1)
  {
    hide EndedSince;
    var i :| 0 <= i < |BusyOf(ask, g)| && BusyOf(ask, g)[i] == iv;
    assert iv.from != t;
  }

  lemma BoundsAreEvents(ask: Ask, events: seq<Event>, g: nat, iv: Interval)
    requires Faithful(ask, events) && g in ask.gpus && iv in BusyOf(ask, g)
    ensures Ordered(events, EventLe) && Event(iv.from, -1, g) in events && Event(iv.until, 1, g) in events
  {
    hide Boundary, Ordered;
  }

  lemma EndIsSeen(ask: Ask, events: seq<Event>, k: nat, g: nat, iv: Interval)
    requires Faithful(ask, events) && 0 < k <= |events| && g in ask.gpus
    requires EndedSince(ask, g, iv.from, events[k - 1].time - 1)
    ensures Answered(ask, events, k, g, iv)
  {
    hide Ordered, Boundary, Faithful;
    var e :| e in BusyOf(ask, g) && iv.from <= e.until <= events[k - 1].time - 1;
    BoundsAreEvents(ask, events, g, e);
    EarlierEvent(events, k - 1, Event(e.until, 1, g));
    SeenLonger(events, k - 1, Event(e.until, 1, g));
  }

  // ----------------------------------------------------- no believed window is missed or passed over

  /** All events at or before `s` are behind. */
  predicate Passed(events: seq<Event>, k: nat, s: int)
    requires k <= |events|
  {
    k == |events| || events[k].time > s
  }

  lemma InsideIsEnough(ask: Ask, events: seq<Event>, k: nat, s: int)
    requires Proper(ask) && Faithful(ask, events) && k <= |events|
    requires BelievedWindow(ask, s) && Cursor(ask, events, k) < s + ask.duration
    requires Passed(events, k, s) || Cursor(ask, events, k) > s
    ensures |FreeSet(ask, events, k)| >= ask.count
  {
    hide Faithful, BelievedAt, Dip, FreeSet;
    if Cursor(ask, events, k) > s {
      DipIsBelow(ask, events, k);
      SubsetSize(Dip(ask, events[k - 1].time), FreeSet(ask, events, k));
    } else {
      SettledIsBelief(ask, events, k, s);
    }
  }

  /** What the sweep knows before event `k`. */
  ghost predicate Tracks(ask: Ask, events: seq<Event>, k: nat, st: State)
    requires k <= |events|
  {
    && st.found.None?
    && st.free == FreeSet(ask, events, k)
    && (st.start.Some? <==> |st.free| >= ask.count)
    && (st.start.Some? ==> ask.from <= st.start.value <= Cursor(ask, events, k))
  }

  /** Once the sweep has passed the start of a believed window it holds a candidate no later. */
  predicate HasCandidate(events: seq<Event>, k: nat, st: State, s: int)
    requires k <= |events|
  {
    Passed(events, k, s) ==> st.start.Some? && st.start.value <= s
  }

  /** A step only looks at how many cards are free after it. */
  lemma ApplyMeans(ask: Ask, st: State, e: Event)
    requires st.found.None?
    ensures var next := Apply(ask, st, e);
      && (next.found.Some? <==> st.start.Some? && |next.free| < ask.count && e.time - st.start.value >= ask.duration)
      && (next.found.Some? ==> next.found == st.start)
      && (next.found.None? ==>
            next.start == if |next.free| < ask.count then None else if st.start.Some? then st.start else Some(e.time))
  {
  }

  lemma StepTracks(ask: Ask, events: seq<Event>, k: nat, st: State)
    requires Proper(ask) && Faithful(ask, events) && k < |events| && Tracks(ask, events, k, st)
    ensures var next := Apply(ask, st, events[k]); next.found.None? ==> Tracks(ask, events, k + 1, next)
  {
    hide Proper, Faithful, FreeSet, Apply;
    ApplyMeans(ask, st, events[k]);
    StepFreeSet(ask, events, k, st);
    CursorAdvances(ask, events, k);
  }

  /** While the step's instant is before the window's end and the window's start is behind, enough cards are free. */
  lemma EnoughInside(ask: Ask, events: seq<Event>, k: nat, st: State, s: int)
    requires Proper(ask) && Faithful(ask, events) && k < |events| && st.free == FreeSet(ask, events, k)
    requires BelievedWindow(ask, s) && events[k].time < s + ask.duration
    requires events[k].time > s || Passed(events, k + 1, s)
    ensures |Apply(ask, st, events[k]).free| >= ask.count
  {
    hide Proper, Faithful, FreeSet, BelievedWindow, Apply;
    StepFreeSet(ask, events, k, st);
    InsideIsEnough(ask, events, k + 1, s);
  }

  lemma StepFinds(ask: Ask, events: seq<Event>, k: nat, st: State, s: int)
    requires Proper(ask) && Faithful(ask, events) && k < |events|
    requires Tracks(ask, events, k, st) && BelievedWindow(ask, s) && HasCandidate(events, k, st, s)
    ensures var next := Apply(ask, st, events[k]);
      if next.found.Some? then next.found.value <= s
      else Tracks(ask, events, k + 1, next) && HasCandidate(events, k + 1, next, s)
  {
    assert ask.duration >= 1 && (k + 1 < |events| ==> events[k].time <= events[k + 1].time) by {
      assert k + 1 < |events| ==> EventLe(events[k], events[k + 1]);
    }
    var e := events[k];
    ApplyMeans(ask, st, e);
    StepTracks(ask, events, k, st);
    hide Proper, Faithful, BelievedWindow, Apply, Cursor;
    if e.time < s + ask.duration && (e.time > s || Passed(events, k + 1, s)) {
      EnoughInside(ask, events, k, st, s);
    }
    hide FreeSet, Tracks;
  }

  lemma {:induction false} WalkFinds(ask: Ask, events: seq<Event>, k: nat, st: State, s: int)
    requires Proper(ask) && Faithful(ask, events) && k <= |events|
    requires Tracks(ask, events, k, st) && BelievedWindow(ask, s) && HasCandidate(events, k, st, s)
    ensures var c := Accept(ask, Walk(ask, events, k, st)); c.Some? && c.value <= s
    decreases |events| - k
  {
    hide Proper, Faithful, FreeSet, BelievedWindow, Tracks, HasCandidate, Passed, Cursor;
    StartsInside(ask, s);
    if k == |events| {
      AtTheEnd(ask, events, st, s);
    } else {
      StepFinds(ask, events, k, st, s);
      WalkStep(ask, events, k, st);
      var next := Apply(ask, st, events[k]);
      hide Apply, Walk;
      if next.found.None? {
        if events[k].time >= ask.until {
          NextIsNoEarlier(ask, events, k);
          NoneLeft(ask, events, k, next, s);
        } else {
          WalkFinds(ask, events, k + 1, next, s);
        }
      }
    }
  }

  lemma AtTheEnd(ask: Ask, events: seq<Event>, st: State, s: int)
    requires Tracks(ask, events, |events|, st) && HasCandidate(events, |events|, st, s) && s + ask.duration <= ask.until
    ensures var c := Accept(ask, st); c.Some? && c.value <= s
  {
    hide FreeSet;
  }

  lemma NextIsNoEarlier(ask: Ask, events: seq<Event>, k: nat)
    requires Faithful(ask, events) && k < |events|
    ensures k + 1 < |events| ==> events[k].time <= events[k + 1].time
  {
    hide Boundary;
    assert k + 1 < |events| ==> EventLe(events[k], events[k + 1]);
  }

  /** At the horizon's end a window inside the horizon has been passed. */
  lemma NoneLeft(ask: Ask, events: seq<Event>, k: nat, st: State, s: int)
    requires k < |events| && events[k].time >= ask.until && s + ask.duration <= ask.until && ask.duration >= 1
    requires k + 1 < |events| ==> events[k].time <= events[k + 1].time
    requires HasCandidate(events, k + 1, st, s)
    ensures st.start.Some? && st.start.value <= s
  {
  }

  lemma InitialTracks(ask: Ask, events: seq<Event>)
    requires Proper(ask)
    ensures Tracks(ask, events, 0, Initial(ask))
  {
    InitialFreeSet(ask, events);
  }

  lemma SweepFindsBelieved(ask: Ask, s: int)
    requires Proper(ask) && BelievedWindow(ask, s)
    ensures EarliestStart(ask).Some? && EarliestStart(ask).value <= s
  {
    hide BelievedWindow, FreeSet;
    var events := Timeline(ask);
    TimelineFaithful(ask);
    InitialTracks(ask, events);
    if Passed(events, 0, s) {
      StartsInside(ask, s);
      InsideIsEnough(ask, events, 0, s);
    }
    WalkFinds(ask, events, 0, Initial(ask), s);
  }

  lemma StartsInside(ask: Ask, s: int)
    requires Proper(ask) && BelievedWindow(ask, s)
    ensures ask.from <= s && s + ask.duration <= ask.until && ask.duration >= 1
  {
  }

  // ------------------------------------------------------------- what is returned is believed

  /** Every instant after `c` and before `until` keeps enough cards, the dips after `c` too. */
  ghost predicate GoodUntil(ask: Ask, c: int, until: int) {
    && (forall t :: c <= t < until ==> |BelievedAt(ask, t)| >= ask.count)
    && (forall t :: c < t < until ==> |Dip(ask, t)| >= ask.count)
  }

  /** The candidate has been good up to the cursor; the cursor's own dip is good or not yet over. */
  ghost predicate Backed(ask: Ask, events: seq<Event>, k: nat, st: State)
    requires k <= |events|
  {
    && Tracks(ask, events, k, st)
    && (st.start.Some? ==>
          var c := st.start.value;
          && GoodUntil(ask, c, Cursor(ask, events, k))
          && (c < Cursor(ask, events, k) && events[k - 1].delta != -1 ==> |Dip(ask, Cursor(ask, events, k))| >= ask.count))
  }

  /** When the sweep leaves an instant, that instant's dip was good too. */
  lemma DipWasGood(ask: Ask, events: seq<Event>, k: nat, st: State)
    requires Proper(ask) && Faithful(ask, events) && 0 < k <= |events| && Backed(ask, events, k, st)
    requires st.start.Some? && st.start.value < Cursor(ask, events, k)
    requires k < |events| ==> events[k].time > events[k - 1].time || events[k].delta == 1
    ensures |Dip(ask, Cursor(ask, events, k))| >= ask.count
  {
    hide GoodUntil, Faithful, Dip, FreeSet;
    if events[k - 1].delta == -1 {
      DipIsSeen(ask, events, k);
    }
  }

  /** Nothing happens between two instants with events. */
  lemma QuietStretch(ask: Ask, events: seq<Event>, k: nat, t: int)
    requires Proper(ask) && Faithful(ask, events) && k <= |events| && ask.from <= Cursor(ask, events, k)
    requires Cursor(ask, events, k) < t && (k < |events| ==> t < events[k].time)
    ensures Dip(ask, t) == FreeSet(ask, events, k) == BelievedAt(ask, t)
  {
    SettledIsBelief(ask, events, k, t);
    SettledIsBelief(ask, events, k, t - 1);
    forall g | g in ask.gpus
      ensures !StartsAt(ask, g, t)
    {
      if StartsAt(ask, g, t) {
        NoEventAt(ask, events, k, t, g);
      }
    }
  }

  lemma NoEventAt(ask: Ask, events: seq<Event>, k: nat, t: int, g: nat)
    requires Proper(ask) && Faithful(ask, events) && k <= |events| && g in ask.gpus
    requires Cursor(ask, events, k) < t && (k < |events| ==> t < events[k].time)
    ensures !StartsAt(ask, g, t)
  {
    if StartsAt(ask, g, t) {
      var i :| 0 <= i < |BusyOf(ask, g)| && BusyOf(ask, g)[i].from == t;
      var e := Event(t, -1, g);
      assert BusyOf(ask, g)[i] in BusyOf(ask, g) && e in events;
      SeenUpTo(ask, events, k, t, e);
      SeenBeforeCursor(ask, events, k, e);
    }
  }

  /** A candidate that lives on has been good until the next event, or until any instant if there is none. */
  lemma GoodUntilNext(ask: Ask, events: seq<Event>, k: nat, st: State, until: int)
    requires Proper(ask) && Faithful(ask, events) && k <= |events| && Backed(ask, events, k, st) && st.start.Some?
    requires Cursor(ask, events, k) <= until && (k < |events| ==> until <= events[k].time)
    ensures GoodUntil(ask, st.start.value, until)
  {
    hide Faithful, Dip, FreeSet, BelievedAt;
    var c, cursor := st.start.value, Cursor(ask, events, k);
    forall t | c <= t < until
      ensures |BelievedAt(ask, t)| >= ask.count
    {
      if cursor <= t {
        SettledIsBelief(ask, events, k, t);
      }
    }
    forall t | c < t < until
      ensures |Dip(ask, t)| >= ask.count
    {
      if cursor < t {
        QuietStretch(ask, events, k, t);
      } else if cursor == t {
        DipWasGood(ask, events, k, st);
      }
    }
  }

  /** At an end, the dip of its instant is over and was good for an older candidate. */
  lemma EndClosesDip(ask: Ask, events: seq<Event>, k: nat, st: State)
    requires Proper(ask) && Faithful(ask, events) && k < |events| && Backed(ask, events, k, st) && st.start.Some?
    requires events[k].delta != -1 && st.start.value < events[k].time
    ensures |Dip(ask, events[k].time)| >= ask.count
  {
    CursorAdvances(ask, events, k);
    assert events[k] in events && Boundary(ask, events[k]);
    hide Dip, FreeSet, BelievedAt;
    if Cursor(ask, events, k) == events[k].time {
      DipWasGood(ask, events, k, st);
    } else {
      NoStartBeforeEnd(ask, events, k);
      SettledIsBelief(ask, events, k, events[k].time - 1);
    }
  }

  /** If the first event of an instant is an end, no stretch starts at that instant. */
  lemma NoStartBeforeEnd(ask: Ask, events: seq<Event>, k: nat)
    requires Proper(ask) && Faithful(ask, events) && k < |events| && events[k].delta == 1
    requires Cursor(ask, events, k) < events[k].time
    ensures Dip(ask, events[k].time) == BelievedAt(ask, events[k].time - 1)
  {
    var t := events[k].time;
    forall g | g in ask.gpus
      ensures !StartsAt(ask, g, t)
    {
      if StartsAt(ask, g, t) {
        var i :| 0 <= i < |BusyOf(ask, g)| && BusyOf(ask, g)[i].from == t;
        var e := Event(t, -1, g);
        assert BusyOf(ask, g)[i] in BusyOf(ask, g) && e in events;
        EarlierEvent(events, k, e);
        SeenBeforeCursor(ask, events, k, e);
      }
    }
  }

  lemma StepBacked(ask: Ask, events: seq<Event>, k: nat, st: State)
    requires Proper(ask) && Faithful(ask, events) && k < |events| && Backed(ask, events, k, st)
    ensures var next := Apply(ask, st, events[k]);
      if next.found.Some? then BelievedWindow(ask, next.found.value) else Backed(ask, events, k + 1, next)
  {
    hide Proper, Faithful, FreeSet, Dip, BelievedAt;
    var e, next := events[k], Apply(ask, st, events[k]);
    StepFreeSet(ask, events, k, st);
    CursorAdvances(ask, events, k);
    if st.start.Some? {
      GoodUntilNext(ask, events, k, st, e.time);
      if e.delta != -1 && st.start.value < e.time {
        EndClosesDip(ask, events, k, st);
      }
    }
  }

  lemma {:induction false} WalkIsBelieved(ask: Ask, events: seq<Event>, k: nat, st: State)
    requires Proper(ask) && Faithful(ask, events) && k <= |events| && Backed(ask, events, k, st)
    requires Cursor(ask, events, k) <= ask.until
    ensures var c := Accept(ask, Walk(ask, events, k, st)); c.Some? ==> BelievedWindow(ask, c.value)
    decreases |events| - k
  {
    hide Proper, Faithful, Backed, BelievedWindow;
    if k == |events| {
      EndIsBelieved(ask, events, k, st);
    } else {
      StepBacked(ask, events, k, st);
      WalkStep(ask, events, k, st);
      CursorAdvances(ask, events, k);
      var next := Apply(ask, st, events[k]);
      hide Apply, Walk;
      if next.found.None? {
        if events[k].time < ask.until {
          WalkIsBelieved(ask, events, k + 1, next);
        } else {
          LateStartIsRefused(ask, events, k + 1, next);
        }
      }
    }
  }

  /** Out of events, the candidate is good to the end of the horizon. */
  lemma EndIsBelieved(ask: Ask, events: seq<Event>, k: nat, st: State)
    requires Proper(ask) && Faithful(ask, events) && k == |events| && Backed(ask, events, k, st)
    requires Cursor(ask, events, k) <= ask.until
    ensures Accept(ask, st).Some? ==> BelievedWindow(ask, Accept(ask, st).value)
  {
    hide Proper, Faithful, FreeSet, Dip, BelievedAt;
    if st.start.Some? {
      GoodUntilNext(ask, events, k, st, ask.until);
    }
  }

  /** At the end of the horizon the candidate has been good up to there. */
  lemma LateStartIsRefused(ask: Ask, events: seq<Event>, k: nat, st: State)
    requires k <= |events| && Backed(ask, events, k, st) && Cursor(ask, events, k) >= ask.until
    ensures Accept(ask, st).Some? ==> BelievedWindow(ask, Accept(ask, st).value)
  {
    hide FreeSet, Dip, BelievedAt;
  }

  /** The sweep answers with the first believed window of the horizon, and with none exactly when there is none. */
  lemma SweepIsFirstBelieved(ask: Ask)
    requires Proper(ask)
    ensures EarliestStart(ask).Some? ==>
              BelievedWindow(ask, EarliestStart(ask).value)
              && forall s :: BelievedWindow(ask, s) ==> EarliestStart(ask).value <= s
    ensures EarliestStart(ask).None? <==> forall s :: !BelievedWindow(ask, s)
  {
    hide BelievedWindow;
    TimelineFaithful(ask);
    InitialTracks(ask, Timeline(ask));
    InitialBacked(ask, Timeline(ask));
    WalkIsBelieved(ask, Timeline(ask), 0, Initial(ask));
    forall s | BelievedWindow(ask, s)
      ensures EarliestStart(ask).Some? && EarliestStart(ask).value <= s
    {
      SweepFindsBelieved(ask, s);
    }
  }

  lemma InitialBacked(ask: Ask, events: seq<Event>)
    requires Tracks(ask, events, 0, Initial(ask))
    ensures Backed(ask, events, 0, Initial(ask))
  {
    hide FreeSet;
  }

  // ------------------------------------------------------------------ completeness and soundness

  lemma FeasibleIsBelieved(ask: Ask, s: int)
    requires Proper(ask) && Feasible(ask, s)
    ensures BelievedWindow(ask, s)
  {
    var cards := FreeThroughout(ask, s);
    forall t | s <= t < s + ask.duration
      ensures |BelievedAt(ask, t)| >= ask.count && (s < t ==> |Dip(ask, t)| >= ask.count)
    {
      forall g | g in cards
        ensures Believed(ask, g, t) && (s < t ==> Believed(ask, g, t - 1) && !StartsAt(ask, g, t))
      {
        StaysBelieved(ask, g, s, t);
      }
      hide FreeThroughout, Believed, StartsAt;
      SubsetSize(cards, BelievedAt(ask, t));
      if s < t {
        SubsetSize(cards, Dip(ask, t));
      }
    }
  }

  lemma StartIsBusy(ask: Ask, g: nat, t: int)
    requires Proper(ask) && g in ask.gpus && StartsAt(ask, g, t)
    ensures BusyAt(ask, g, t)
  {
    var i :| 0 <= i < |BusyOf(ask, g)| && BusyOf(ask, g)[i].from == t;
    assert BusyOf(ask, g)[i] in BusyOf(ask, g);
  }

  lemma StaysBelieved(ask: Ask, g: nat, s: int, t: int)
    requires Proper(ask) && g in FreeThroughout(ask, s) && s <= t < s + ask.duration
    ensures g in ask.gpus && Believed(ask, g, t) && (s < t ==> Believed(ask, g, t - 1) && !StartsAt(ask, g, t))
  {
    FreeIsBelieved(ask, g, t);
    if s < t {
      FreeIsBelieved(ask, g, t - 1);
      if StartsAt(ask, g, t) {
        StartIsBusy(ask, g, t);
      }
    }
  }

  /** Completeness, touching or overlapping stretches or not: the sweep misses no feasible window. */
  lemma SweepMissesNothing(ask: Ask, s: int)
    requires Proper(ask) && Feasible(ask, s)
    ensures EarliestStart(ask).Some? && EarliestStart(ask).value <= s
  {
    FeasibleIsBelieved(ask, s);
    SweepFindsBelieved(ask, s);
  }

  /** The answer, if any, is a window with enough free cards at every instant. */
  ghost predicate AnswersSoundly(ask: Ask) {
    EarliestStart(ask).Some? ==> Covered(ask, EarliestStart(ask).value)
  }

  ghost predicate FirstBelieved(ask: Ask, c: int) {
    BelievedWindow(ask, c) && forall s :: BelievedWindow(ask, s) ==> c <= s
  }

  /** The first window the sweep believes in, if there is one, is really covered. */
  ghost predicate TrueBelief(ask: Ask) {
    forall c :: FirstBelieved(ask, c) ==> Covered(ask, c)
  }

  /** Any question for any number of cards is answered soundly exactly when its first believed window is really covered. */
  lemma SoundExactlyWhereBeliefIsTrue(ask: Ask)
    requires Proper(ask)
    ensures AnswersSoundly(ask) <==> TrueBelief(ask)
  {
    hide BelievedWindow, Covered, EarliestStart;
    SweepIsFirstBelieved(ask);
    if EarliestStart(ask).Some? {
      assert FirstBelieved(ask, EarliestStart(ask).value);
    }
  }

  /** In particular where no stretch ends inside another of its card. */
  lemma SweepIsSound(ask: Ask)
    requires Proper(ask) && NoReentry(ask)
    ensures AnswersSoundly(ask)
  {
    SweepIsFirstBelieved(ask);
    if EarliestStart(ask).Some? {
      var c := EarliestStart(ask).value;
      hide EarliestStart;
      forall t | c <= t < c + ask.duration
        ensures |FreeAt(ask, t)| >= ask.count
      {
        forall g | g in BelievedAt(ask, t)
          ensures g in FreeAt(ask, t)
        {
          BeliefIsTruthOrReentry(ask, g, t);
        }
        SubsetSize(BelievedAt(ask, t), FreeAt(ask, t));
      }
    }
  }

  // ------------------------------------------------------------------------------- all cards

  function CardSet(gpus: seq<nat>): set<nat> {
    set g | g in gpus
  }

  lemma {:induction false} CardCount(gpus: seq<nat>)
    requires forall i, j :: 0 <= i < j < |gpus| ==> gpus[i] != gpus[j]
    ensures |CardSet(gpus)| == |gpus|
  {
    if gpus == [] {
      assert CardSet(gpus) == {};
    } else {
      var n := |gpus| - 1;
      CardCount(gpus[..n]);
      assert CardSet(gpus) == CardSet(gpus[..n]) + {gpus[n]};
      assert gpus[n] !in CardSet(gpus[..n]);
    }
  }

  /** A set of the cards is as large as all of them exactly when it has them all. */
  lemma Everyone(gpus: seq<nat>, some: set<nat>)
    requires forall i, j :: 0 <= i < j < |gpus| ==> gpus[i] != gpus[j]
    requires forall g :: g in some ==> g in gpus
    ensures |some| >= |gpus| <==> forall g :: g in gpus ==> g in some
  {
    CardCount(gpus);
    var cards := CardSet(gpus);
    var rest := cards - some;
    assert cards == some + rest;
    assert |cards| == |some| + |rest|;
    assert rest == {} <==> forall g :: g in gpus ==> g in some;
  }

  /** When every card is asked for: each is believed throughout, and none starts after the first instant. */
  lemma AllCardsWindow(ask: Ask, c: int)
    requires ask.count == |ask.gpus| && forall i, j :: 0 <= i < j < |ask.gpus| ==> ask.gpus[i] != ask.gpus[j]
    ensures BelievedWindow(ask, c) <==>
            && ask.from <= c && c + ask.duration <= ask.until
            && forall g, t :: g in ask.gpus && c <= t < c + ask.duration ==>
                 Believed(ask, g, t) && (c < t ==> !StartsAt(ask, g, t))
  {
    hide Believed, StartsAt;
    forall t
      ensures |BelievedAt(ask, t)| >= ask.count <==> forall g :: g in ask.gpus ==> Believed(ask, g, t)
      ensures |Dip(ask, t)| >= ask.count <==> forall g :: g in ask.gpus ==> Believed(ask, g, t - 1) && !StartsAt(ask, g, t)
    {
      Everyone(ask.gpus, BelievedAt(ask, t));
      Everyone(ask.gpus, Dip(ask, t));
    }
    hide BelievedAt, Dip;
    if BelievedWindow(ask, c) {
      forall g, t | g in ask.gpus && c <= t < c + ask.duration
        ensures Believed(ask, g, t) && (c < t ==> !StartsAt(ask, g, t))
      {
        assert |BelievedAt(ask, t)| >= ask.count && (c < t ==> |Dip(ask, t)| >= ask.count);
      }
    }
    if && ask.from <= c && c + ask.duration <= ask.until
       && forall g, t :: g in ask.gpus && c <= t < c + ask.duration ==> Believed(ask, g, t) && (c < t ==> !StartsAt(ask, g, t))
    {
      forall t | c <= t < c + ask.duration
        ensures |BelievedAt(ask, t)| >= ask.count && (c < t ==> |Dip(ask, t)| >= ask.count)
      {
      }
    }
  }

  /** A false belief at the start of a window goes back to an end that another stretch covers, with no start in between. */
  lemma LatestEnd(ask: Ask, g: nat, iv: Interval, u: int, c: int) returns (e: Interval)
    requires Believed(ask, g, c) && iv in BusyOf(ask, g) && iv.from <= u <= c < iv.until
    requires exists end :: end in BusyOf(ask, g) && end.until == u
    ensures e in BusyOf(ask, g) && iv.from <= e.until <= c
    ensures forall start :: start in BusyOf(ask, g) ==> !(e.until < start.from <= c)
    decreases c - u
  {
    e :| e in BusyOf(ask, g) && e.until == u;
    if start :| start in BusyOf(ask, g) && u < start.from <= c {
      assert EndedSince(ask, g, start.from, c);
      var end :| end in BusyOf(ask, g) && start.from <= end.until <= c;
      e := LatestEnd(ask, g, iv, end.until, c);
    }
  }

  // ------------------------------------------------------------------------------ the picks

  /** The picks are distinct cards of the server, each free at the instant, and all of them if fewer than asked. */
  lemma {:induction false} PicksAreFree(ask: Ask, gpus: seq<nat>, t: int)
    requires ask.count >= 1
    requires forall i, j :: 0 <= i < j < |gpus| ==> gpus[i] != gpus[j]
    ensures var picked := FirstFree(ask, gpus, t);
      && (forall i, j :: 0 <= i < j < |picked| ==> picked[i] != picked[j])
      && (forall g :: g in picked ==> g in gpus && !BusyAt(ask, g, t))
      && |picked| <= ask.count
      && (|picked| < ask.count ==> forall g :: g in gpus && !BusyAt(ask, g, t) ==> g in picked)
  {
    if gpus != [] {
      var n := |gpus| - 1;
      PicksAreFree(ask, gpus[..n], t);
      assert gpus[n] !in gpus[..n];
      assert forall g :: g in gpus <==> g in gpus[..n] || g == gpus[n];
    }
  }

  lemma {:induction false} SizeOfSeq(xs: seq<nat>, s: set<nat>)
    requires forall g :: g in s ==> g in xs
    ensures |s| <= |xs|
  {
    if xs != [] {
      SizeOfSeq(xs[..|xs| - 1], s - {xs[|xs| - 1]});
    }
  }

  /** They come in the server's order, and no card free at the instant is passed over for a later one. */
  lemma {:induction false} PicksComeFirst(ask: Ask, gpus: seq<nat>, t: int, i: nat, j: nat)
    requires ask.count >= 1 && i < j < |gpus|
    requires forall i, j :: 0 <= i < j < |gpus| ==> gpus[i] != gpus[j]
    ensures var picked := FirstFree(ask, gpus, t);
      && (gpus[j] in picked && !BusyAt(ask, gpus[i], t) ==> gpus[i] in picked)
      && (gpus[i] in picked && gpus[j] in picked ==>
            exists k, l :: 0 <= k < l < |picked| && picked[k] == gpus[i] && picked[l] == gpus[j])
  {
    hide BusyAt;
    var n := |gpus| - 1;
    var before, picked := FirstFree(ask, gpus[..n], t), FirstFree(ask, gpus, t);
    PicksAreFree(ask, gpus[..n], t);
    assert forall k :: 0 <= k < n ==> gpus[..n][k] == gpus[k] != gpus[n];
    if j < n {
      PicksComeFirst(ask, gpus[..n], t, i, j);
      if gpus[i] in before && gpus[j] in before {
        var k, l :| 0 <= k < l < |before| && before[k] == gpus[i] && before[l] == gpus[j];
        assert picked[k] == before[k] && picked[l] == before[l];
      }
    } else {
      assert gpus[i] in gpus[..n] && gpus[n] !in before;
      if gpus[i] in picked && gpus[n] in picked {
        var k :| 0 <= k < |before| && before[k] == gpus[i];
        assert picked == before + [gpus[n]] && picked[k] == before[k];
      }
    }
  }

  /** Where enough cards are free, exactly as many as asked are picked. */
  lemma EnoughPicked(ask: Ask, t: int)
    requires Proper(ask) && |FreeAt(ask, t)| >= ask.count
    ensures |FirstFree(ask, ask.gpus, t)| == ask.count
  {
    PicksAreFree(ask, ask.gpus, t);
    var picked := FirstFree(ask, ask.gpus, t);
    if |picked| < ask.count {
      SizeOfSeq(picked, FreeAt(ask, t));
    }
  }

  /** When every card is asked for, every picked card is free throughout the window. */
  lemma AllPickedStayFree(ask: Ask, c: int, g: nat, t: int)
    requires Proper(ask) && Covered(ask, c) && ask.count == |ask.gpus|
    requires g in ask.gpus && c <= t < c + ask.duration
    ensures !BusyAt(ask, g, t)
  {
    hide BusyAt;
    if BusyAt(ask, g, t) {
      var k :| 0 <= k < |ask.gpus| && ask.gpus[k] == g;
      var rest := ask.gpus[..k] + ask.gpus[k + 1..];
      forall h | h in FreeAt(ask, t)
        ensures h in rest
      {
        StaysIn(ask.gpus, k, h);
      }
      hide FreeAt, Proper;
      SizeOfSeq(rest, FreeAt(ask, t));
    }
  }

  lemma StaysIn(gpus: seq<nat>, k: nat, h: nat)
    requires k < |gpus| && h in gpus && h != gpus[k]
    ensures h in gpus[..k] + gpus[k + 1..]
  {
    assert gpus == gpus[..k] + [gpus[k]] + gpus[k + 1..];
  }

  // ------------------------------------------------------------------------ counterexamples

  const TAKING_TURNS := Ask([0, 1], map[0 := [Interval(5 * HOUR, 10 * HOUR)], 1 := [Interval(0, 4 * HOUR)]], 0, 168 * HOUR, 1, 10 * HOUR)

  lemma TakingTurnsStart()
    ensures Proper(TAKING_TURNS) && NoReentry(TAKING_TURNS)
    ensures EarliestStart(TAKING_TURNS).Some? && 0 <= EarliestStart(TAKING_TURNS).value <= 4 * HOUR
  {
    hide EarliestStart, Covered;
    assert Proper(TAKING_TURNS) && NoReentry(TAKING_TURNS);
    hide Proper, NoReentry;
    SecondIsFree();
    SweepMissesNothing(TAKING_TURNS, 4 * HOUR);
    SweepIsSound(TAKING_TURNS);
    assert Covered(TAKING_TURNS, EarliestStart(TAKING_TURNS).value) ==> 0 <= EarliestStart(TAKING_TURNS).value by {
      CoveredIsInside(TAKING_TURNS, EarliestStart(TAKING_TURNS).value);
    }
  }

  lemma CoveredIsInside(ask: Ask, c: int)
    ensures Covered(ask, c) ==> ask.from <= c
  {
  }

  lemma SecondIsFree()
    ensures Feasible(TAKING_TURNS, 4 * HOUR)
  {
    forall t | 4 * HOUR <= t < 14 * HOUR
      ensures !BusyAt(TAKING_TURNS, 1, t)
    {
    }
    assert 1 in FreeThroughout(TAKING_TURNS, 4 * HOUR);
    SubsetSize({1}, FreeThroughout(TAKING_TURNS, 4 * HOUR));
  }

  /** Even without re-entry a picked card may be taken during the window, when fewer than all are asked for. */
  lemma PickedCardMayBecomeBusy()
    ensures EarliestStart(TAKING_TURNS).Some?
    ensures var ask, c := TAKING_TURNS, EarliestStart(TAKING_TURNS).value;
      && FirstFree(ask, ask.gpus, c) == [0]
      && c <= 5 * HOUR < c + ask.duration && BusyAt(ask, 0, 5 * HOUR)
  {
    hide EarliestStart;
    TakingTurnsStart();
    var ask, c := TAKING_TURNS, EarliestStart(TAKING_TURNS).value;
    assert ask.gpus[..1] == [0] && ask.gpus[..1][..0] == [];
    assert FirstFree(ask, ask.gpus[..1], c) == [0];
    assert BusyOf(ask, 0)[0].from <= 5 * HOUR < BusyOf(ask, 0)[0].until;
  }
}
