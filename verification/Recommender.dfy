/** The schedule recommender as it runs: clip the live reservations, sweep each server, sort, take the top. */
module Recommender {
  import opened Prelude
  import opened Reservations
  import opened Conflicts
  import opened Sorting
  import opened Sweep

  const HORIZON: int := 604_800_000_000

  datatype Window = Window(gpuIds: seq<nat>, startAt: int, endAt: int)

  /** The events list, built interval by interval. */
  method CollectEvents(ask: Ask) returns (events: seq<Event>)
    ensures events == EventsOf(ask, ask.gpus)
  {
    events := [];
    for i := 0 to |ask.gpus|
      invariant events == EventsOf(ask, ask.gpus[..i])
    {
      var gpu := ask.gpus[i];
      var busy := BusyOf(ask, gpu);
      for j := 0 to |busy|
        invariant events == EventsOf(ask, ask.gpus[..i]) + IntervalEvents(gpu, busy[..j])
      {
        events := events + [Event(busy[j].from, -1, gpu)];
        events := events + [Event(busy[j].until, 1, gpu)];
        assert busy[..j + 1][..j] == busy[..j];
        assert IntervalEvents(gpu, busy[..j + 1])
            == IntervalEvents(gpu, busy[..j]) + [Event(busy[j].from, -1, gpu), Event(busy[j].until, 1, gpu)];
      }
      assert busy[..|busy|] == busy;
      assert ask.gpus[..i + 1][..i] == ask.gpus[..i];
    }
    assert ask.gpus[..|ask.gpus|] == ask.gpus;
  }

  /** Is any of the card's stretches over the instant? */
  method AnyCovers(ask: Ask, gpu: nat, t: int) returns (covered: bool)
    ensures covered == BusyAt(ask, gpu, t)
  {
    var busy := BusyOf(ask, gpu);
    covered := false;
    for j := 0 to |busy|
      invariant !covered && forall i :: 0 <= i < j ==> !(busy[i].from <= t < busy[i].until)
    {
      if busy[j].from <= t < busy[j].until {
        return true;
      }
    }
  }

  /** `_pick_first_n` */
  method PickFirstN(ask: Ask, t: int) returns (picked: seq<nat>)
    requires ask.count >= 1
    ensures picked == FirstFree(ask, ask.gpus, t)
  {
    picked := [];
    var i := 0;
    while i < |ask.gpus|
      invariant i <= |ask.gpus| && |picked| < ask.count
      invariant picked == FirstFree(ask, ask.gpus[..i], t)
    {
      var gpu := ask.gpus[i];
      var covered := AnyCovers(ask, gpu, t);
      assert ask.gpus[..i + 1][..i] == ask.gpus[..i];
      i := i + 1;
      if covered {
        continue;
      }
      picked := picked + [gpu];
      if |picked| == ask.count {
        FullStays(ask, i, t);
        return;
      }
    }
    assert ask.gpus[..|ask.gpus|] == ask.gpus;
  }

  lemma {:induction false} FullStays(ask: Ask, i: nat, t: int)
    requires i <= |ask.gpus| && |FirstFree(ask, ask.gpus[..i], t)| == ask.count
    ensures FirstFree(ask, ask.gpus, t) == FirstFree(ask, ask.gpus[..i], t)
    decreases |ask.gpus| - i
  {
    if i == |ask.gpus| {
      assert ask.gpus[..i] == ask.gpus;
    } else {
      assert ask.gpus[..i + 1][..i] == ask.gpus[..i];
      FullStays(ask, i + 1, t);
    }
  }

  /** The cards not busy as the horizon opens. */
  method InitiallyFree(ask: Ask) returns (freeSet: set<nat>)
    ensures freeSet == FreeAt(ask, ask.from)
  {
    freeSet := set g | g in ask.gpus;
    for i := 0 to |ask.gpus|
      invariant forall g :: g in freeSet <==> g in ask.gpus && !(g in ask.gpus[..i] && BusyAt(ask, g, ask.from))
    {
      var covered := AnyCovers(ask, ask.gpus[i], ask.from);
      if covered {
        freeSet := freeSet - {ask.gpus[i]};
      }
      assert forall g :: g in ask.gpus[..i + 1] <==> g in ask.gpus[..i] || g == ask.gpus[i];
    }
    assert ask.gpus[..|ask.gpus|] == ask.gpus;
  }

  /** The sweep itself: the start of the window it accepts, if any. */
  method SweepTimeline(ask: Ask) returns (accepted: Option<int>)
    ensures accepted == EarliestStart(ask)
  {
    hide BusyAt;
    var events := CollectEvents(ask);
    events := Sort(events, EventLe);
    var freeSet := InitiallyFree(ask);
    var start: Option<int> := None;
    if |freeSet| >= ask.count {
      start := Some(ask.from);
    }
    assert freeSet == Initial(ask).free;
    var k := 0;
    while k < |events|
      invariant k <= |events|
      invariant Walk(ask, events, 0, Initial(ask)) == Walk(ask, events, k, State(freeSet, start, None))
    {
      var e := events[k];
      WalkStep(ask, events, k, State(freeSet, start, None));
      hide Walk;
      if e.delta == -1 {
        freeSet := freeSet - {e.gpu};
      } else {
        freeSet := freeSet + {e.gpu};
      }
      if start.None? && |freeSet| >= ask.count {
        start := Some(e.time);
      } else if start.Some? && |freeSet| < ask.count {
        if e.time - start.value >= ask.duration {
          return start;
        }
        start := None;
      }
      k := k + 1;
      if e.time >= ask.until {
        break;
      }
    }
    if start.Some? && ask.until - start.value >= ask.duration {
      accepted := start;
    } else {
      accepted := None;
    }
  }

  /** The window the sweep's start and the picks make. */
  function WindowOf(ask: Ask): Option<Window> {
    match EarliestStart(ask)
    case None => None
    case Some(c) => Some(Window(FirstFree(ask, ask.gpus, c), c, c + ask.duration))
  }

  /**
   `_earliest_window_for_server`: no feasible window is missed or starts earlier; the picks are distinct cards of the
   server free at the start; without re-entry every instant has enough free cards, exactly as many are picked,
   and if every card is asked for each picked one stays free.
   */
  method EarliestWindowForServer(ask: Ask) returns (w: Option<Window>)
    requires Proper(ask)
    ensures w == WindowOf(ask)
    ensures forall s :: Feasible(ask, s) ==> w.Some? && w.value.startAt <= s
    ensures w.Some? ==> Picked(ask, w.value)
    ensures w.Some? && NoReentry(ask) ==> Kept(ask, w.value)
  {
    assert ask.count >= 1;
    hide Proper, Feasible, Picked, Kept, NoReentry, EarliestStart, FirstFree;
    var accepted := SweepTimeline(ask);
    if accepted.Some? {
      var picked := PickFirstN(ask, accepted.value);
      w := Some(Window(picked, accepted.value, accepted.value + ask.duration));
    } else {
      w := None;
    }
    assert w == WindowOf(ask);
    hide WindowOf;
    forall s | Feasible(ask, s)
      ensures w.Some? && w.value.startAt <= s
    {
      WindowMissesNothing(ask, s);
    }
    if w.Some? {
      WindowIsPicked(ask, w.value);
    }
  }

  /** Whatever the sweep believed: the window has its length, lies in the horizon, and its picks are free as it starts. */
  ghost predicate Picked(ask: Ask, w: Window) {
    && ask.from <= w.startAt && w.endAt == w.startAt + ask.duration && w.endAt <= ask.until
    && |w.gpuIds| <= ask.count
    && (forall i, j :: 0 <= i < j < |w.gpuIds| ==> w.gpuIds[i] != w.gpuIds[j])
    && (forall g :: g in w.gpuIds ==> g in ask.gpus && !BusyAt(ask, g, w.startAt))
  }

  /** What the window is for: enough free cards all along, as many picked, and if all are asked for each stays free. */
  ghost predicate Kept(ask: Ask, w: Window) {
    && Covered(ask, w.startAt) && |w.gpuIds| == ask.count
    && (ask.count == |ask.gpus| ==> forall g, t :: g in ask.gpus && w.startAt <= t < w.endAt ==> !BusyAt(ask, g, t))
  }

  lemma WindowMissesNothing(ask: Ask, s: int)
    requires Proper(ask) && Feasible(ask, s)
    ensures WindowOf(ask).Some? && WindowOf(ask).value.startAt <= s
  {
    hide Proper, Feasible, EarliestStart, FirstFree;
    SweepMissesNothing(ask, s);
  }

  lemma WindowIsPicked(ask: Ask, w: Window)
    requires Proper(ask) && WindowOf(ask) == Some(w)
    ensures Picked(ask, w) && (NoReentry(ask) ==> Kept(ask, w))
  {
    SweepIsFirstBelieved(ask);
    PicksAreFree(ask, ask.gpus, w.startAt);
    if NoReentry(ask) {
      SweepIsSound(ask);
      CoveredIsKept(ask, w);
    }
  }

  lemma CoveredIsKept(ask: Ask, w: Window)
    requires Proper(ask) && WindowOf(ask) == Some(w) && Covered(ask, w.startAt)
    ensures Kept(ask, w)
  {
    EnoughPicked(ask, w.startAt);
    if ask.count == |ask.gpus| {
      forall g, t | g in ask.gpus && w.startAt <= t < w.endAt
        ensures !BusyAt(ask, g, t)
      {
        AllPickedStayFree(ask, w.startAt, g, t);
      }
    }
  }

  // ------------------------------------------------------- from reservations to busy stretches

  function Max(a: int, b: int): int { if a < b then b else a }

  function Min(a: int, b: int): int { if a < b then a else b }

  function Clip(r: Row, from: int, until: int): Interval {
    Interval(Max(r.startAt, from), Min(r.endAt, until))
  }

  /** A card's live reservations that meet the horizon, clipped to it. */
  function ClipsOf(rows: seq<Row>, gpu: nat, from: int, until: int): seq<Interval> {
    if rows == [] then []
    else
      var last := rows[|rows| - 1];
      ClipsOf(rows[..|rows| - 1], gpu, from, until)
      + (if Picks(Within(gpu, from, until), last) then [Clip(last, from, until)] else [])
  }

  lemma {:induction false} ClipsComeFromRows(rows: seq<Row>, gpu: nat, from: int, until: int)
    ensures forall iv :: iv in ClipsOf(rows, gpu, from, until) <==>
              exists i :: 0 <= i < |rows| && Picks(Within(gpu, from, until), rows[i]) && iv == Clip(rows[i], from, until)
  {
    if rows != [] {
      var n := |rows| - 1;
      ClipsComeFromRows(rows[..n], gpu, from, until);
      assert forall i :: 0 <= i < n ==> rows[..n][i] == rows[i];
    }
  }

  predicate Reserved(rows: seq<Row>, gpu: nat, t: int) {
    exists i :: 0 <= i < |rows| && Picks(At(gpu, t), rows[i])
  }

  /** Inside the horizon a card is busy for the sweep exactly when a live reservation covers the instant. */
  lemma BusyIsReserved(ask: Ask, rows: seq<Row>, gpu: nat, t: int)
    requires BusyOf(ask, gpu) == ClipsOf(rows, gpu, ask.from, ask.until)
    requires ask.from <= t < ask.until
    ensures BusyAt(ask, gpu, t) <==> Reserved(rows, gpu, t)
  {
    ClipsComeFromRows(rows, gpu, ask.from, ask.until);
    if BusyAt(ask, gpu, t) {
      var j :| 0 <= j < |BusyOf(ask, gpu)| && BusyOf(ask, gpu)[j].from <= t < BusyOf(ask, gpu)[j].until;
      assert BusyOf(ask, gpu)[j] in ClipsOf(rows, gpu, ask.from, ask.until);
      var i :| 0 <= i < |rows| && Picks(Within(gpu, ask.from, ask.until), rows[i])
               && BusyOf(ask, gpu)[j] == Clip(rows[i], ask.from, ask.until);
      assert Picks(At(gpu, t), rows[i]);
    }
    if i :| 0 <= i < |rows| && Picks(At(gpu, t), rows[i]) {
      assert Picks(Within(gpu, ask.from, ask.until), rows[i]);
      assert Clip(rows[i], ask.from, ask.until) in BusyOf(ask, gpu);
    }
  }

  /** No live reservation of the card ends at an instant that another live one of it covers. */
  ghost predicate RowsApart(rows: seq<Row>, gpu: nat) {
    forall i, j :: 0 <= i < |rows| && 0 <= j < |rows| && OnCard(rows[i], gpu) && OnCard(rows[j], gpu) ==>
      !(rows[j].startAt <= rows[i].endAt < rows[j].endAt)
  }

  predicate OnCard(r: Row, gpu: nat) {
    Live(r) && r.gpuId == Some(gpu)
  }

  /** The dictionary of busy stretches: the cards that have any, each with its clipped reservations. */
  function BusyMap(rows: seq<Row>, cards: set<nat>, from: int, until: int): map<nat, seq<Interval>> {
    map g | g in cards && ClipsOf(rows, g, from, until) != [] :: ClipsOf(rows, g, from, until)
  }

  /** The same, filled row by row. */
  method ClipBusy(rows: seq<Row>, cards: set<nat>, from: int, until: int) returns (busy: map<nat, seq<Interval>>)
    ensures busy == BusyMap(rows, cards, from, until)
  {
    busy := map[];
    for k := 0 to |rows|
      invariant busy == BusyMap(rows[..k], cards, from, until)
    {
      var r := rows[k];
      assert rows[..k + 1][..k] == rows[..k];
      ghost var before := busy;
      if Live(r) && r.gpuId.Some? && r.gpuId.value in cards && r.startAt < until && r.endAt > from {
        var g := r.gpuId.value;
        busy := busy[g := (if g in busy then busy[g] else []) + [Clip(r, from, until)]];
      }
      MoreBusy(rows, k, cards, from, until);
    }
    assert rows[..|rows|] == rows;
  }

  lemma MoreBusy(rows: seq<Row>, k: nat, cards: set<nat>, from: int, until: int)
    requires k < |rows|
    ensures var r, before := rows[k], BusyMap(rows[..k], cards, from, until);
      BusyMap(rows[..k + 1], cards, from, until) ==
      if Live(r) && r.gpuId.Some? && r.gpuId.value in cards && r.startAt < until && r.endAt > from
      then before[r.gpuId.value := (if r.gpuId.value in before then before[r.gpuId.value] else []) + [Clip(r, from, until)]]
      else before
  {
    forall g: nat
      ensures ClipsOf(rows[..k + 1], g, from, until) ==
              if Picks(Within(g, from, until), rows[k]) then ClipsOf(rows[..k], g, from, until) + [Clip(rows[k], from, until)]
              else ClipsOf(rows[..k], g, from, until)
    {
      MoreClips(rows, k, g, from, until);
    }
    hide ClipsOf, Clip;
  }

  lemma MoreClips(rows: seq<Row>, k: nat, g: nat, from: int, until: int)
    requires k < |rows|
    ensures ClipsOf(rows[..k + 1], g, from, until) ==
            if Picks(Within(g, from, until), rows[k]) then ClipsOf(rows[..k], g, from, until) + [Clip(rows[k], from, until)]
            else ClipsOf(rows[..k], g, from, until)
  {
    hide Clip, Picks;
    assert rows[..k + 1][..k] == rows[..k];
  }

  // ------------------------------------------------------------------------------ recommend

  datatype ServerCards = ServerCards(serverId: nat, gpus: seq<nat>)

  datatype Candidate = Candidate(serverId: nat, window: Window)

  datatype RecommendError = BadCount | BadLimit

  /** What is asked of every server alike. */
  datatype Wish = Wish(count: nat, duration: int, from: int)

  predicate StartLe(a: Candidate, b: Candidate) {
    a.window.startAt <= b.window.startAt
  }

  function AllCards(servers: seq<ServerCards>): set<nat> {
    if servers == [] then {}
    else AllCards(servers[..|servers| - 1]) + CardSet(servers[|servers| - 1].gpus)
  }

  function Eligible(servers: seq<ServerCards>, count: nat): seq<ServerCards> {
    if servers == [] then []
    else
      var before, last := Eligible(servers[..|servers| - 1], count), servers[|servers| - 1];
      if |last.gpus| >= count then before + [last] else before
  }

  /** The question put to the sweep for one server. */
  function Question(gpus: seq<nat>, busy: map<nat, seq<Interval>>, wish: Wish): Ask {
    Ask(gpus, busy, wish.from, wish.from + HORIZON, wish.count, wish.duration)
  }

  function CandidatesOf(servers: seq<ServerCards>, busy: map<nat, seq<Interval>>, wish: Wish): seq<Candidate> {
    if servers == [] then []
    else
      var before, last := CandidatesOf(servers[..|servers| - 1], busy, wish), servers[|servers| - 1];
      match WindowOf(Question(last.gpus, busy, wish))
      case None => before
      case Some(w) => before + [Candidate(last.serverId, w)]
  }

  /** The instant asked for, but not the past. */
  ghost function Since(after: Option<int>, now: int): int {
    if after.Some? && after.value > now then after.value else now
  }

  function SearchStart(after: Option<int>, now: int): int {
    Max(after.GetOr(now), now)
  }

  /** The candidates of the eligible servers, in the servers' order. */
  function AllCandidates(servers: seq<ServerCards>, rows: seq<Row>, wish: Wish): seq<Candidate> {
    var eligible := Eligible(servers, wish.count);
    CandidatesOf(eligible, BusyMap(rows, AllCards(eligible), wish.from, wish.from + HORIZON), wish)
  }

  /** `recommend` as a function of what it reads. */
  function Recommended(servers: seq<ServerCards>, rows: seq<Row>, count: int, limit: int, after: Option<int>, now: int, topK: nat)
    : Result<seq<Candidate>, RecommendError>
  {
    if count < 1 then Err(BadCount)
    else if limit < 60 then Err(BadLimit)
    else
      var wish := Wish(count, limit * SECOND, SearchStart(after, now));
      var sorted := Sort(AllCandidates(servers, rows, wish), StartLe);
      Ok(if topK < |sorted| then sorted[..topK] else sorted)
  }

  method KeepEligible(servers: seq<ServerCards>, count: nat) returns (eligible: seq<ServerCards>)
    ensures eligible == Eligible(servers, count)
  {
    eligible := [];
    for k := 0 to |servers|
      invariant eligible == Eligible(servers[..k], count)
    {
      assert servers[..k + 1][..k] == servers[..k];
      if |servers[k].gpus| >= count {
        eligible := eligible + [servers[k]];
      }
    }
    assert servers[..|servers|] == servers;
  }

  method CollectCandidates(servers: seq<ServerCards>, busy: map<nat, seq<Interval>>, wish: Wish) returns (candidates: seq<Candidate>)
    requires forall server :: server in servers ==> Proper(Question(server.gpus, busy, wish))
    ensures candidates == CandidatesOf(servers, busy, wish)
  {
    hide Proper, WindowOf, Question, Feasible, Picked, Kept, NoReentry;
    candidates := [];
    assert CandidatesOf(servers[..0], busy, wish) == [];
    hide CandidatesOf;
    for k := 0 to |servers|
      invariant candidates == CandidatesOf(servers[..k], busy, wish)
    {
      NextCandidate(servers, k, busy, wish);
      var w := EarliestWindowForServer(Question(servers[k].gpus, busy, wish));
      if w.Some? {
        candidates := candidates + [Candidate(servers[k].serverId, w.value)];
      }
    }
    assert servers[..|servers|] == servers;
  }

  lemma NextCandidate(servers: seq<ServerCards>, k: nat, busy: map<nat, seq<Interval>>, wish: Wish)
    requires k < |servers|
    ensures var before := CandidatesOf(servers[..k], busy, wish);
      var w := WindowOf(Question(servers[k].gpus, busy, wish));
      CandidatesOf(servers[..k + 1], busy, wish) ==
      if w.Some? then before + [Candidate(servers[k].serverId, w.value)] else before
  {
    hide WindowOf, Question;
    assert servers[..k + 1][..k] == servers[..k];
  }

  /**
   `recommend`: exactly the first top k of all candidates by start; what they promise is `RecommendationsPromise` and
   `FirstIsNoLater`.
   */
  method Recommend(servers: seq<ServerCards>, rows: seq<Row>, count: int, limit: int, after: Option<int>, now: int, topK: nat)
    returns (r: Result<seq<Candidate>, RecommendError>)
    requires forall i :: 0 <= i < |servers| ==> DistinctCards(servers[i].gpus)
    requires forall row :: row in rows ==> row.startAt < row.endAt
    ensures r == Recommended(servers, rows, count, limit, after, now, topK)
  {
    if count < 1 {
      return Err(BadCount);
    }
    if limit < 60 {
      return Err(BadLimit);
    }
    hide AllCandidates, DistinctCards, Sort;
    var wish := Wish(count, limit * SECOND, SearchStart(after, now));
    var candidates := GatherCandidates(servers, rows, wish);
    var sorted := Sort(candidates, StartLe);
    r := Ok(if topK < |sorted| then sorted[..topK] else sorted);
  }

  method GatherCandidates(servers: seq<ServerCards>, rows: seq<Row>, wish: Wish) returns (candidates: seq<Candidate>)
    requires wish.count >= 1 && wish.duration >= 1
    requires forall i :: 0 <= i < |servers| ==> DistinctCards(servers[i].gpus)
    requires forall row :: row in rows ==> row.startAt < row.endAt
    ensures candidates == AllCandidates(servers, rows, wish)
  {
    hide BusyMap, Eligible, CandidatesOf, AllCards, Proper, Reflects, DistinctCards, Question;
    var eligible := KeepEligible(servers, wish.count);
    var busy := ClipBusy(rows, AllCards(eligible), wish.from, wish.from + HORIZON);
    QuestionsAreProper(servers, rows, wish);
    candidates := CollectCandidates(eligible, busy, wish);
  }

  // ---------------------------------------------------------- what the recommendations promise

  ghost function Unreserved(rows: seq<Row>, gpus: seq<nat>, t: int): set<nat> {
    set g | g in gpus && !Reserved(rows, g, t)
  }

  ghost function UnreservedThroughout(rows: seq<Row>, gpus: seq<nat>, from: int, until: int): set<nat> {
    set g | g in gpus && forall t :: from <= t < until ==> !Reserved(rows, g, t)
  }

  /** Enough of the server's cards have no live reservation at any instant of the window starting at `s`. */
  ghost predicate Bookable(rows: seq<Row>, gpus: seq<nat>, count: nat, duration: int, from: int, s: int) {
    && from <= s && s + duration <= from + HORIZON
    && |UnreservedThroughout(rows, gpus, s, s + duration)| >= count
  }

  ghost predicate DistinctCards(gpus: seq<nat>) {
    forall i, j :: 0 <= i < j < |gpus| ==> gpus[i] != gpus[j]
  }

  /** The sweep's input says of the horizon what the reservations say. */
  ghost predicate Reflects(ask: Ask, rows: seq<Row>) {
    forall g :: g in ask.gpus ==> BusyOf(ask, g) == ClipsOf(rows, g, ask.from, ask.until)
  }

  lemma QuestionReflects(gpus: seq<nat>, rows: seq<Row>, cards: set<nat>, wish: Wish)
    requires forall g :: g in gpus ==> g in cards
    ensures Reflects(Question(gpus, BusyMap(rows, cards, wish.from, wish.from + HORIZON), wish), rows)
  {
  }

  lemma ReflectionIsProper(ask: Ask, rows: seq<Row>)
    requires Reflects(ask, rows) && DistinctCards(ask.gpus) && ask.count >= 1 && ask.duration >= 1 && ask.from < ask.until
    requires forall r :: r in rows ==> r.startAt < r.endAt
    ensures Proper(ask)
  {
    forall g, iv | g in ask.gpus && iv in BusyOf(ask, g)
      ensures ask.from <= iv.from < iv.until <= ask.until
    {
      ClipsComeFromRows(rows, g, ask.from, ask.until);
    }
  }

  lemma {:induction false} EligibleServers(servers: seq<ServerCards>, count: nat)
    ensures forall server :: server in Eligible(servers, count) <==> server in servers && |server.gpus| >= count
    ensures forall server, g :: server in servers && g in server.gpus ==> g in AllCards(servers)
  {
    if servers != [] {
      var n := |servers| - 1;
      EligibleServers(servers[..n], count);
      assert forall server :: server in servers <==> server in servers[..n] || server == servers[n];
    }
  }

  lemma QuestionsAreProper(servers: seq<ServerCards>, rows: seq<Row>, wish: Wish)
    requires wish.count >= 1 && wish.duration >= 1
    requires forall i :: 0 <= i < |servers| ==> DistinctCards(servers[i].gpus)
    requires forall r :: r in rows ==> r.startAt < r.endAt
    ensures var eligible := Eligible(servers, wish.count);
      var busy := BusyMap(rows, AllCards(eligible), wish.from, wish.from + HORIZON);
      forall server :: server in eligible ==>
        Proper(Question(server.gpus, busy, wish)) && Reflects(Question(server.gpus, busy, wish), rows)
  {
    hide Proper, Reflects, BusyMap;
    var eligible := Eligible(servers, wish.count);
    var busy := BusyMap(rows, AllCards(eligible), wish.from, wish.from + HORIZON);
    EligibleServers(servers, wish.count);
    EligibleServers(eligible, wish.count);
    forall server | server in eligible
      ensures Proper(Question(server.gpus, busy, wish)) && Reflects(Question(server.gpus, busy, wish), rows)
    {
      QuestionReflects(server.gpus, rows, AllCards(eligible), wish);
      ReflectionIsProper(Question(server.gpus, busy, wish), rows);
    }
  }

  lemma BookableIsFeasible(ask: Ask, rows: seq<Row>, s: int)
    requires Reflects(ask, rows) && ask.until == ask.from + HORIZON
    requires Bookable(rows, ask.gpus, ask.count, ask.duration, ask.from, s)
    ensures Feasible(ask, s)
  {
    var cards := UnreservedThroughout(rows, ask.gpus, s, s + ask.duration);
    forall g, t | g in cards && s <= t < s + ask.duration
      ensures !BusyAt(ask, g, t)
    {
      BusyIsReserved(ask, rows, g, t);
    }
    SubsetSize(cards, FreeThroughout(ask, s));
  }

  lemma ApartFromRows(ask: Ask, rows: seq<Row>)
    requires Reflects(ask, rows) && forall g :: g in ask.gpus ==> RowsApart(rows, g)
    ensures NoReentry(ask)
  {
    forall g, iv, other | g in ask.gpus && iv in BusyOf(ask, g) && other in BusyOf(ask, g)
      ensures !(other.from <= iv.until < other.until)
    {
      ClipsComeFromRows(rows, g, ask.from, ask.until);
      var i :| 0 <= i < |rows| && Picks(Within(g, ask.from, ask.until), rows[i]) && iv == Clip(rows[i], ask.from, ask.until);
      var j :| 0 <= j < |rows| && Picks(Within(g, ask.from, ask.until), rows[j]) && other == Clip(rows[j], ask.from, ask.until);
      assert OnCard(rows[i], g) && OnCard(rows[j], g);
    }
  }

  /** Whatever the sweep believed: asked length, inside the horizon, and distinct cards of the server unreserved as it starts. */
  ghost predicate Offered(rows: seq<Row>, server: ServerCards, wish: Wish, c: Candidate) {
    var w := c.window;
    && c.serverId == server.serverId
    && wish.from <= w.startAt && w.endAt == w.startAt + wish.duration && w.endAt <= wish.from + HORIZON
    && |w.gpuIds| <= wish.count && DistinctCards(w.gpuIds)
    && (forall g :: g in w.gpuIds ==> g in server.gpus && !Reserved(rows, g, w.startAt))
  }

  /** Enough cards unreserved at every instant, as many picked as asked, and all of them unreserved throughout if all are asked for. */
  ghost predicate KeptByRows(rows: seq<Row>, server: ServerCards, wish: Wish, w: Window) {
    && (forall t :: w.startAt <= t < w.endAt ==> |Unreserved(rows, server.gpus, t)| >= wish.count)
    && |w.gpuIds| == wish.count
    && (wish.count == |server.gpus| ==>
          forall g, t :: g in server.gpus && w.startAt <= t < w.endAt ==> !Reserved(rows, g, t))
  }

  ghost predicate Promised(rows: seq<Row>, server: ServerCards, wish: Wish, c: Candidate) {
    && Offered(rows, server, wish, c)
    && ((forall g :: g in server.gpus ==> RowsApart(rows, g)) ==> KeptByRows(rows, server, wish, c.window))
  }

  lemma WindowIsPromised(ask: Ask, rows: seq<Row>, server: ServerCards, wish: Wish, w: Window)
    requires Proper(ask) && Reflects(ask, rows) && ask == Question(server.gpus, ask.busy, wish) && WindowOf(ask) == Some(w)
    ensures Promised(rows, server, wish, Candidate(server.serverId, w))
  {
    hide Proper, NoReentry, WindowOf, Kept, KeptByRows, Offered, Picked, Reflects, Question, RowsApart;
    WindowIsPicked(ask, w);
    PickedIsOffered(ask, rows, server, wish, w);
    if forall g :: g in server.gpus ==> RowsApart(rows, g) {
      ServersCards(ask, server, wish);
      ApartFromRows(ask, rows);
      KeptFromSweep(ask, rows, server, wish, w);
    }
  }

  lemma ServersCards(ask: Ask, server: ServerCards, wish: Wish)
    requires ask == Question(server.gpus, ask.busy, wish)
    ensures ask.gpus == server.gpus
  {
  }

  lemma PickedIsOffered(ask: Ask, rows: seq<Row>, server: ServerCards, wish: Wish, w: Window)
    requires Proper(ask) && Reflects(ask, rows) && ask == Question(server.gpus, ask.busy, wish) && Picked(ask, w)
    ensures Offered(rows, server, wish, Candidate(server.serverId, w))
  {
    assert ask.duration >= 1;
    hide Proper, BusyAt, Reserved, Reflects;
    forall g | g in w.gpuIds
      ensures !Reserved(rows, g, w.startAt)
    {
      ReflectsCard(ask, rows, g);
      BusyIsReserved(ask, rows, g, w.startAt);
    }
  }

  lemma KeptFromSweep(ask: Ask, rows: seq<Row>, server: ServerCards, wish: Wish, w: Window)
    requires Reflects(ask, rows) && ask == Question(server.gpus, ask.busy, wish) && Picked(ask, w) && Kept(ask, w)
    ensures KeptByRows(rows, server, wish, w)
  {
    hide BusyAt, Reserved, Reflects;
    forall g, t | g in server.gpus && w.startAt <= t < w.endAt
      ensures BusyAt(ask, g, t) <==> Reserved(rows, g, t)
    {
      ReflectsCard(ask, rows, g);
      BusyIsReserved(ask, rows, g, t);
    }
    forall t | w.startAt <= t < w.endAt
      ensures |Unreserved(rows, server.gpus, t)| >= wish.count
    {
      assert FreeAt(ask, t) == Unreserved(rows, server.gpus, t);
    }
  }

  lemma ReflectsCard(ask: Ask, rows: seq<Row>, g: nat)
    requires Reflects(ask, rows) && g in ask.gpus
    ensures BusyOf(ask, g) == ClipsOf(rows, g, ask.from, ask.until)
  {
  }

  /** Each candidate is the promise of some server asked. */
  lemma {:induction false} CandidatesPromise(servers: seq<ServerCards>, rows: seq<Row>, busy: map<nat, seq<Interval>>, wish: Wish, c: Candidate)
    requires c in CandidatesOf(servers, busy, wish)
    requires forall server :: server in servers ==>
      Proper(Question(server.gpus, busy, wish)) && Reflects(Question(server.gpus, busy, wish), rows)
    ensures exists i :: 0 <= i < |servers| && Promised(rows, servers[i], wish, c)
  {
    hide Proper, Reflects, Promised;
    var n := |servers| - 1;
    var init, last := servers[..n], servers[n];
    if c in CandidatesOf(init, busy, wish) {
      CandidatesPromise(init, rows, busy, wish, c);
      var i :| 0 <= i < |init| && Promised(rows, init[i], wish, c);
      assert servers[i] == init[i];
    } else {
      WindowIsPromised(Question(last.gpus, busy, wish), rows, last, wish, c.window);
    }
  }

  /** Any bookable window of any server asked has a candidate no later. */
  lemma {:induction false} NoCandidateIsLater(servers: seq<ServerCards>, rows: seq<Row>, busy: map<nat, seq<Interval>>, wish: Wish, i: nat, s: int)
    requires i < |servers| && Bookable(rows, servers[i].gpus, wish.count, wish.duration, wish.from, s)
    requires forall server :: server in servers ==>
      Proper(Question(server.gpus, busy, wish)) && Reflects(Question(server.gpus, busy, wish), rows)
    ensures exists c :: c in CandidatesOf(servers, busy, wish) && c.serverId == servers[i].serverId && c.window.startAt <= s
  {
    hide Proper, Reflects, Bookable, WindowOf, Question;
    var n := |servers| - 1;
    MoreCandidates(servers, busy, wish);
    if i < n {
      NoCandidateIsLater(servers[..n], rows, busy, wish, i, s);
    } else {
      AnswerIsNoLater(servers[n], rows, busy, wish, s);
    }
  }

  lemma AnswerIsNoLater(server: ServerCards, rows: seq<Row>, busy: map<nat, seq<Interval>>, wish: Wish, s: int)
    requires Bookable(rows, server.gpus, wish.count, wish.duration, wish.from, s)
    requires Proper(Question(server.gpus, busy, wish)) && Reflects(Question(server.gpus, busy, wish), rows)
    ensures var w := WindowOf(Question(server.gpus, busy, wish)); w.Some? && w.value.startAt <= s
  {
    hide Proper, Reflects, Bookable;
    var ask := Question(server.gpus, busy, wish);
    BookableIsFeasible(ask, rows, s);
    SweepMissesNothing(ask, s);
  }

  lemma MoreCandidates(servers: seq<ServerCards>, busy: map<nat, seq<Interval>>, wish: Wish)
    requires servers != []
    ensures var n := |servers| - 1;
      var w := WindowOf(Question(servers[n].gpus, busy, wish));
      && (forall c :: c in CandidatesOf(servers[..n], busy, wish) ==> c in CandidatesOf(servers, busy, wish))
      && (w.Some? ==> Candidate(servers[n].serverId, w.value) in CandidatesOf(servers, busy, wish))
  {
    hide WindowOf, Question;
  }

  /** What `recommend` returns: sorted, at most top k, each the promise of an eligible server. */
  lemma RecommendationsPromise(servers: seq<ServerCards>, rows: seq<Row>, count: int, limit: int, after: Option<int>, now: int, topK: nat)
    requires forall i :: 0 <= i < |servers| ==> DistinctCards(servers[i].gpus)
    requires forall row :: row in rows ==> row.startAt < row.endAt
    ensures var r := Recommended(servers, rows, count, limit, after, now, topK);
      && (r.Err? <==> count < 1 || limit < 60)
      && (r.Ok? ==>
            var wish := Wish(count, limit * SECOND, Since(after, now));
            && Ordered(r.value, StartLe) && |r.value| <= topK
            && forall c :: c in r.value ==> exists i :: 0 <= i < |servers| && |servers[i].gpus| >= count && Promised(rows, servers[i], wish, c))
  {
    hide Promised, BusyMap, Sort, CandidatesOf, Eligible, AllCards, DistinctCards;
    if count >= 1 && limit >= 60 {
      var wish := Wish(count, limit * SECOND, SearchStart(after, now));
      var candidates := AllCandidates(servers, rows, wish);
      hide AllCandidates;
      SortSorts(candidates, StartLe);
      TopOfSorted(candidates, topK);
      var top := Recommended(servers, rows, count, limit, after, now, topK).value;
      forall c | c in top
        ensures exists i :: 0 <= i < |servers| && |servers[i].gpus| >= count && Promised(rows, servers[i], wish, c)
      {
        CandidateIsPromised(servers, rows, wish, c);
      }
    }
  }

  lemma CandidateIsPromised(servers: seq<ServerCards>, rows: seq<Row>, wish: Wish, c: Candidate)
    requires wish.count >= 1 && wish.duration >= 1
    requires forall i :: 0 <= i < |servers| ==> DistinctCards(servers[i].gpus)
    requires forall row :: row in rows ==> row.startAt < row.endAt
    requires c in AllCandidates(servers, rows, wish)
    ensures exists i :: 0 <= i < |servers| && |servers[i].gpus| >= wish.count && Promised(rows, servers[i], wish, c)
  {
    hide Promised, BusyMap, Proper, Reflects, CandidatesOf, Eligible, AllCards, Question;
    var eligible := Eligible(servers, wish.count);
    var busy := BusyMap(rows, AllCards(eligible), wish.from, wish.from + HORIZON);
    QuestionsAreProper(servers, rows, wish);
    EligibleServers(servers, wish.count);
    CandidatesPromise(eligible, rows, busy, wish, c);
    var j :| 0 <= j < |eligible| && Promised(rows, eligible[j], wish, c);
    assert eligible[j] in eligible;
    var i :| 0 <= i < |servers| && servers[i] == eligible[j];
  }

  /** Sorting and cutting keeps candidates candidates. */
  lemma TopOfSorted(candidates: seq<Candidate>, topK: nat)
    ensures var sorted := Sort(candidates, StartLe);
      forall c :: c in (if topK < |sorted| then sorted[..topK] else sorted) ==> c in candidates
  {
    hide Sort;
    SortSorts(candidates, StartLe);
    var sorted := Sort(candidates, StartLe);
    assert forall c :: c in sorted <==> c in multiset(sorted);
    assert forall c :: c in candidates <==> c in multiset(candidates);
  }

  /** Some candidate of the server starts no later than any of its bookable windows. */
  lemma BookableServerIsCandidate(servers: seq<ServerCards>, rows: seq<Row>, wish: Wish, i: nat, s: int) returns (c: Candidate)
    requires forall k :: 0 <= k < |servers| ==> DistinctCards(servers[k].gpus)
    requires forall row :: row in rows ==> row.startAt < row.endAt
    requires wish.count >= 1 && wish.duration >= 1 && i < |servers| && |servers[i].gpus| >= wish.count
    requires Bookable(rows, servers[i].gpus, wish.count, wish.duration, wish.from, s)
    ensures c in AllCandidates(servers, rows, wish) && c.serverId == servers[i].serverId && c.window.startAt <= s
  {
    hide Bookable, BusyMap, Proper, Reflects, Question, CandidatesOf, Eligible, AllCards;
    var eligible := Eligible(servers, wish.count);
    var busy := BusyMap(rows, AllCards(eligible), wish.from, wish.from + HORIZON);
    QuestionsAreProper(servers, rows, wish);
    EligibleServers(servers, wish.count);
    assert servers[i] in eligible;
    var j :| 0 <= j < |eligible| && eligible[j] == servers[i];
    NoCandidateIsLater(eligible, rows, busy, wish, j, s);
    c :| c in CandidatesOf(eligible, busy, wish) && c.serverId == servers[i].serverId && c.window.startAt <= s;
  }

  /**
   No server is forgotten: for each bookable window of an eligible server the answer holds a candidate of that server
   starting no later, or is as long as asked and starts throughout no later.
   */
  lemma NoServerIsForgotten(servers: seq<ServerCards>, rows: seq<Row>, count: int, limit: int, after: Option<int>, now: int, topK: nat, i: nat, s: int)
    requires forall k :: 0 <= k < |servers| ==> DistinctCards(servers[k].gpus)
    requires forall row :: row in rows ==> row.startAt < row.endAt
    requires count >= 1 && limit >= 60
    requires i < |servers| && |servers[i].gpus| >= count
    requires Bookable(rows, servers[i].gpus, count, limit * SECOND, Since(after, now), s)
    ensures var r := Recommended(servers, rows, count, limit, after, now, topK);
      r.Ok? && ((exists c :: c in r.value && c.serverId == servers[i].serverId && c.window.startAt <= s)
                || (|r.value| == topK && forall c :: c in r.value ==> c.window.startAt <= s))
  {
    hide Bookable, AllCandidates, Sort, DistinctCards;
    var wish := Wish(count, limit * SECOND, SearchStart(after, now));
    var c := BookableServerIsCandidate(servers, rows, wish, i, s);
    CutKeepsEarliest(AllCandidates(servers, rows, wish), topK, c);
  }

  /** What sorting and cutting leaves out is no earlier than all it keeps. */
  lemma CutKeepsEarliest(candidates: seq<Candidate>, topK: nat, c: Candidate)
    requires c in candidates
    ensures var sorted := Sort(candidates, StartLe);
      var top := if topK < |sorted| then sorted[..topK] else sorted;
      c in top || (|top| == topK && forall x :: x in top ==> x.window.startAt <= c.window.startAt)
  {
    SortSorts(candidates, StartLe);
    var sorted := Sort(candidates, StartLe);
    hide Sort;
    assert c in multiset(candidates) && c in multiset(sorted);
    var k :| 0 <= k < |sorted| && sorted[k] == c;
    if topK < |sorted| && topK <= k {
      forall j | 0 <= j < topK
        ensures sorted[..topK][j].window.startAt <= c.window.startAt
      {
        assert StartLe(sorted[j], sorted[k]);
      }
    } else if topK < |sorted| {
      assert sorted[..topK][k] == c;
    }
  }

  /** No two of them are of the same server. */
  predicate ServersApart(candidates: seq<Candidate>) {
    forall i, j :: 0 <= i < j < |candidates| ==> candidates[i].serverId != candidates[j].serverId
  }

  predicate DistinctServers(servers: seq<ServerCards>) {
    forall i, j :: 0 <= i < j < |servers| ==> servers[i].serverId != servers[j].serverId
  }

  lemma {:induction false} EligibleAreDistinct(servers: seq<ServerCards>, count: nat)
    requires DistinctServers(servers)
    ensures DistinctServers(Eligible(servers, count))
  {
    if servers != [] {
      var n := |servers| - 1;
      var before := Eligible(servers[..n], count);
      EligibleAreDistinct(servers[..n], count);
      EligibleServers(servers[..n], count);
      assert forall k :: 0 <= k < |before| ==> before[k] in servers[..n];
    }
  }

  lemma {:induction false} CandidatesAreApart(servers: seq<ServerCards>, busy: map<nat, seq<Interval>>, wish: Wish)
    requires DistinctServers(servers)
    ensures ServersApart(CandidatesOf(servers, busy, wish))
    ensures forall c :: c in CandidatesOf(servers, busy, wish) ==> exists k :: 0 <= k < |servers| && servers[k].serverId == c.serverId
  {
    hide WindowOf, Question;
    if servers != [] {
      var n := |servers| - 1;
      var before := CandidatesOf(servers[..n], busy, wish);
      CandidatesAreApart(servers[..n], busy, wish);
      forall c | c in before
        ensures exists k :: 0 <= k < n && servers[k].serverId == c.serverId
      {
        var k :| 0 <= k < n && servers[..n][k].serverId == c.serverId;
        assert servers[k] == servers[..n][k];
      }
    }
  }

  /** Sorting keeps servers apart: a repeated one would be a repeated candidate. */
  lemma SortedAreApart(candidates: seq<Candidate>)
    requires ServersApart(candidates)
    ensures ServersApart(Sort(candidates, StartLe))
  {
    SortSorts(candidates, StartLe);
    var sorted := Sort(candidates, StartLe);
    hide Sort;
    forall i, j | 0 <= i < j < |sorted|
      ensures sorted[i].serverId != sorted[j].serverId
    {
      assert sorted[i] in multiset(sorted) && sorted[j] in multiset(sorted);
      assert sorted[i] in candidates && sorted[j] in candidates;
      if sorted[i].serverId == sorted[j].serverId {
        Twice(sorted, i, j);
        Once(candidates, sorted[i]);
      }
    }
  }

  lemma Twice(xs: seq<Candidate>, i: nat, j: nat)
    requires i < j < |xs| && xs[i] == xs[j]
    ensures multiset(xs)[xs[i]] >= 2
  {
    assert xs == xs[..j] + xs[j..] && xs[i] in xs[..j] && xs[j] in xs[j..];
    assert multiset(xs) == multiset(xs[..j]) + multiset(xs[j..]);
  }

  lemma {:induction false} Once(xs: seq<Candidate>, x: Candidate)
    requires ServersApart(xs)
    ensures multiset(xs)[x] <= 1
  {
    if xs != [] {
      var init, last := xs[..|xs| - 1], xs[|xs| - 1];
      Once(init, x);
      assert xs == init + [last];
      assert forall k :: 0 <= k < |init| ==> init[k].serverId == xs[k].serverId != last.serverId;
    }
  }

  /** Where servers have ids of their own, each is recommended at most once. */
  lemma EachServerOnce(servers: seq<ServerCards>, rows: seq<Row>, count: int, limit: int, after: Option<int>, now: int, topK: nat)
    requires DistinctServers(servers)
    ensures var r := Recommended(servers, rows, count, limit, after, now, topK); r.Ok? ==> ServersApart(r.value)
  {
    hide Sort, BusyMap, Eligible, AllCards, CandidatesOf, DistinctServers;
    if count >= 1 && limit >= 60 {
      var wish := Wish(count, limit * SECOND, SearchStart(after, now));
      var eligible := Eligible(servers, count);
      EligibleAreDistinct(servers, count);
      CandidatesAreApart(eligible, BusyMap(rows, AllCards(eligible), wish.from, wish.from + HORIZON), wish);
      SortedAreApart(AllCandidates(servers, rows, wish));
    }
  }

  /** The first recommendation is no later than any bookable window of any eligible server. */
  lemma FirstIsNoLater(servers: seq<ServerCards>, rows: seq<Row>, count: int, limit: int, after: Option<int>, now: int, topK: nat, i: nat, s: int)
    requires forall k :: 0 <= k < |servers| ==> DistinctCards(servers[k].gpus)
    requires forall row :: row in rows ==> row.startAt < row.endAt
    requires count >= 1 && limit >= 60 && topK >= 1
    requires i < |servers| && |servers[i].gpus| >= count
    requires Bookable(rows, servers[i].gpus, count, limit * SECOND, Since(after, now), s)
    ensures var r := Recommended(servers, rows, count, limit, after, now, topK);
      r.Ok? && r.value != [] && r.value[0].window.startAt <= s
  {
    hide Bookable, AllCandidates, Sort, DistinctCards;
    var wish := Wish(count, limit * SECOND, SearchStart(after, now));
    var c := BookableServerIsCandidate(servers, rows, wish, i, s);
    FirstOfSorted(AllCandidates(servers, rows, wish), c);
  }

  lemma FirstOfSorted(candidates: seq<Candidate>, c: Candidate)
    requires c in candidates
    ensures var sorted := Sort(candidates, StartLe); sorted != [] && sorted[0].window.startAt <= c.window.startAt
  {
    SortSorts(candidates, StartLe);
    var sorted := Sort(candidates, StartLe);
    assert c in multiset(candidates) && c in multiset(sorted);
    var k :| 0 <= k < |sorted| && sorted[k] == c;
    assert k == 0 || StartLe(sorted[0], sorted[k]);
  }
}
