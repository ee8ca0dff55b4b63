/** When the recommender's own questions are answered soundly: limits of a minute or more, a horizon of seven days. */
module RealQuestions {
  import opened Prelude
  import opened Reservations
  import opened Conflicts
  import opened Sorting
  import opened Sweep
  import opened Recommender

  /** A limit `recommend` accepts, put for some cards of a server, with the search starting at `from`. */
  function QuestionOn(rows: seq<Row>, cards: set<nat>, gpus: seq<nat>, count: nat, limit: int, from: int): Ask {
    Question(gpus, BusyMap(rows, cards, from, from + HORIZON), Wish(count, limit * SECOND, from))
  }

  /** The end of reservation i lies inside reservation j of the same card. */
  predicate CoversEnd(rows: seq<Row>, gpu: nat, i: nat, j: nat)
    requires i < |rows| && j < |rows|
  {
    OnCard(rows[i], gpu) && OnCard(rows[j], gpu) && rows[j].startAt <= rows[i].endAt < rows[j].endAt
  }

  predicate StartsBetween(rows: seq<Row>, gpu: nat, from: int, until: int) {
    exists k :: 0 <= k < |rows| && OnCard(rows[k], gpu) && from < rows[k].startAt < until
  }

  lemma QuestionIsProper(rows: seq<Row>, cards: set<nat>, gpus: seq<nat>, count: nat, limit: int, from: int)
    requires DistinctCards(gpus) && limit >= 60 && count >= 1 && (forall g :: g in gpus ==> g in cards)
    requires forall r :: r in rows ==> r.startAt < r.endAt
    ensures var ask := QuestionOn(rows, cards, gpus, count, limit, from);
      Proper(ask) && Reflects(ask, rows)
  {
    hide Proper, Reflects, BusyMap, DistinctCards;
    QuestionReflects(gpus, rows, cards, Wish(count, limit * SECOND, from));
    ReflectionIsProper(QuestionOn(rows, cards, gpus, count, limit, from), rows);
  }

  // ------------------------------------------------------------------------------- several cards

  /** The sweep's belief in terms of reservations: each one begun by t and not over as the search starts is followed by an end by t. */
  ghost predicate BelievedByRows(rows: seq<Row>, gpu: nat, from: int, t: int) {
    forall i :: 0 <= i < |rows| && OnCard(rows[i], gpu) && rows[i].startAt <= t && from < rows[i].endAt ==>
      FollowedByEnd(rows, gpu, from, t, rows[i].startAt)
  }

  ghost predicate FollowedByEnd(rows: seq<Row>, gpu: nat, from: int, t: int, startAt: int) {
    exists k :: 0 <= k < |rows| && OnCard(rows[k], gpu) && startAt <= rows[k].endAt && from < rows[k].endAt <= t
  }

  lemma BeliefFromRows(rows: seq<Row>, ask: Ask, gpu: nat, t: int)
    requires BusyOf(ask, gpu) == ClipsOf(rows, gpu, ask.from, ask.until) && ask.from <= t < ask.until
    requires forall r :: r in rows ==> r.startAt < r.endAt
    ensures Believed(ask, gpu, t) <==> BelievedByRows(rows, gpu, ask.from, t)
  {
    ClipsComeFromRows(rows, gpu, ask.from, ask.until);
    forall startAt, from | from == (if startAt < ask.from then ask.from else startAt) && startAt <= t
      ensures EndedSince(ask, gpu, from, t) <==> FollowedByEnd(rows, gpu, ask.from, t, startAt)
    {
      EndsFromRows(rows, ask, gpu, t, startAt);
    }
    hide EndedSince, FollowedByEnd;
    if Believed(ask, gpu, t) {
      forall i | 0 <= i < |rows| && OnCard(rows[i], gpu) && rows[i].startAt <= t && ask.from < rows[i].endAt
        ensures FollowedByEnd(rows, gpu, ask.from, t, rows[i].startAt)
      {
        assert Picks(Within(gpu, ask.from, ask.until), rows[i]);
        assert Clip(rows[i], ask.from, ask.until) in BusyOf(ask, gpu);
      }
    }
    if BelievedByRows(rows, gpu, ask.from, t) {
      forall iv | iv in BusyOf(ask, gpu) && iv.from <= t
        ensures EndedSince(ask, gpu, iv.from, t)
      {
        var i :| 0 <= i < |rows| && Picks(Within(gpu, ask.from, ask.until), rows[i]) && iv == Clip(rows[i], ask.from, ask.until);
        assert OnCard(rows[i], gpu);
      }
    }
  }

  lemma EndsFromRows(rows: seq<Row>, ask: Ask, gpu: nat, t: int, startAt: int)
    requires BusyOf(ask, gpu) == ClipsOf(rows, gpu, ask.from, ask.until) && ask.from <= t < ask.until && startAt <= t
    requires forall r :: r in rows ==> r.startAt < r.endAt
    ensures EndedSince(ask, gpu, if startAt < ask.from then ask.from else startAt, t)
            <==> FollowedByEnd(rows, gpu, ask.from, t, startAt)
  {
    ClipsComeFromRows(rows, gpu, ask.from, ask.until);
    var from := if startAt < ask.from then ask.from else startAt;
    if EndedSince(ask, gpu, from, t) {
      var e :| e in BusyOf(ask, gpu) && from <= e.until <= t;
      var k :| 0 <= k < |rows| && Picks(Within(gpu, ask.from, ask.until), rows[k]) && e == Clip(rows[k], ask.from, ask.until);
      assert OnCard(rows[k], gpu);
    }
    if FollowedByEnd(rows, gpu, ask.from, t, startAt) {
      var k :| 0 <= k < |rows| && OnCard(rows[k], gpu) && startAt <= rows[k].endAt && ask.from < rows[k].endAt <= t;
      assert rows[k] in rows && Picks(Within(gpu, ask.from, ask.until), rows[k]);
      var e := Clip(rows[k], ask.from, ask.until);
      assert e in BusyOf(ask, gpu) && from <= e.until <= t;
    }
  }

  /**
   A corollary for a server with any number of cards and one limit: every question, for any number of cards and from
   now or any later time on, is answered soundly exactly when each one's first believed window is really covered.
   */
  lemma ServerSoundExactly(rows: seq<Row>, cards: set<nat>, gpus: seq<nat>, limit: int, now: int)
    requires DistinctCards(gpus) && limit >= 60 && (forall g :: g in gpus ==> g in cards)
    requires forall r :: r in rows ==> r.startAt < r.endAt
    ensures (forall count: nat, from :: count >= 1 && from >= now ==> AnswersSoundly(QuestionOn(rows, cards, gpus, count, limit, from)))
            <==> forall count: nat, from :: count >= 1 && from >= now ==> TrueBelief(QuestionOn(rows, cards, gpus, count, limit, from))
  {
    hide AnswersSoundly, TrueBelief, QuestionOn;
    forall count: nat, from | count >= 1
      ensures AnswersSoundly(QuestionOn(rows, cards, gpus, count, limit, from))
              <==> TrueBelief(QuestionOn(rows, cards, gpus, count, limit, from))
    {
      OneQuestion(rows, cards, gpus, count, limit, from);
    }
  }

  lemma OneQuestion(rows: seq<Row>, cards: set<nat>, gpus: seq<nat>, count: nat, limit: int, from: int)
    requires DistinctCards(gpus) && limit >= 60 && count >= 1 && (forall g :: g in gpus ==> g in cards)
    requires forall r :: r in rows ==> r.startAt < r.endAt
    ensures var ask := QuestionOn(rows, cards, gpus, count, limit, from); AnswersSoundly(ask) <==> TrueBelief(ask)
  {
    hide AnswersSoundly, TrueBelief, DistinctCards, Proper, Reflects;
    QuestionIsProper(rows, cards, gpus, count, limit, from);
    SoundExactlyWhereBeliefIsTrue(QuestionOn(rows, cards, gpus, count, limit, from));
  }

  // ----------------------------------------------------------------- every card of a server asked for

  /**
   At instant c the card is reserved and yet believed free: a coming end lies inside the reservation that still runs,
   and nothing has started on the card since that end.
   */
  ghost predicate TakenForFree(rows: seq<Row>, gpu: nat, since: int, c: int) {
    exists i, j :: 0 <= i < |rows| && 0 <= j < |rows| && FalseSince(rows, gpu, i, j, c) && since <= rows[i].endAt
  }

  predicate FalseSince(rows: seq<Row>, gpu: nat, i: nat, j: nat, c: int)
    requires i < |rows| && j < |rows|
  {
    && CoversEnd(rows, gpu, i, j) && rows[i].endAt <= c < rows[j].endAt && c + 60 * SECOND < rows[i].endAt + HORIZON
    && !StartsBetween(rows, gpu, rows[i].endAt, c + 1)
  }

  /**
   An instant at which the sweep can be fooled about all cards at once: each is free or taken for free, not all are
   free, and for a minute nothing starts on any of them.
   */
  ghost predicate FalseOpening(rows: seq<Row>, gpus: seq<nat>, now: int, c: int) {
    && (forall g :: g in gpus ==> !Reserved(rows, g, c) || TakenForFree(rows, g, now + 1, c))
    && (exists g :: g in gpus && Reserved(rows, g, c))
    && (forall g :: g in gpus ==> !StartsBetween(rows, g, c, c + 60 * SECOND))
  }

  // ----- without such an instant every answer is sound -----

  /** A start of a reservation inside the horizon is a start of the question's stretches. */
  lemma StartIsClipped(rows: seq<Row>, ask: Ask, g: nat, from: int, until: int) returns (start: Interval)
    requires BusyOf(ask, g) == ClipsOf(rows, g, ask.from, ask.until) && (forall r :: r in rows ==> r.startAt < r.endAt)
    requires StartsBetween(rows, g, from, until) && ask.from <= from && until <= ask.until
    ensures start in BusyOf(ask, g) && from < start.from < until && StartsAt(ask, g, start.from)
  {
    var k :| 0 <= k < |rows| && OnCard(rows[k], g) && from < rows[k].startAt < until;
    assert rows[k] in rows;
    ClipsComeFromRows(rows, g, ask.from, ask.until);
    start := Clip(rows[k], ask.from, ask.until);
    assert Picks(Within(g, ask.from, ask.until), rows[k]);
  }

  lemma CoveringEnd(rows: seq<Row>, g: nat, from: int, until: int, iv: Interval, e: Interval, c: int) returns (i: nat, j: nat)
    requires iv in ClipsOf(rows, g, from, until) && e in ClipsOf(rows, g, from, until)
    requires iv.from <= e.until <= c < iv.until && from < e.until && c < until
    ensures i < |rows| && j < |rows| && CoversEnd(rows, g, i, j) && rows[i].endAt == e.until && c < rows[j].endAt
  {
    ClipsComeFromRows(rows, g, from, until);
    i :| 0 <= i < |rows| && Picks(Within(g, from, until), rows[i]) && e == Clip(rows[i], from, until);
    j :| 0 <= j < |rows| && Picks(Within(g, from, until), rows[j]) && iv == Clip(rows[j], from, until);
  }

  /** A card that is busy at the start of a believed window was taken for free. */
  lemma FalseBeliefIsTaken(rows: seq<Row>, ask: Ask, g: nat, now: int, c: int, iv: Interval)
    requires Proper(ask) && g in ask.gpus && BusyOf(ask, g) == ClipsOf(rows, g, ask.from, ask.until)
    requires (forall r :: r in rows ==> r.startAt < r.endAt) && ask.until == ask.from + HORIZON
    requires now <= ask.from <= c && c + 60 * SECOND <= ask.until
    requires Believed(ask, g, c) && iv in BusyOf(ask, g) && iv.from <= c < iv.until
    ensures TakenForFree(rows, g, now + 1, c)
  {
    hide ClipsOf;
    var e := LastEndBefore(ask, g, c, iv);
    hide Believed, Proper;
    var i, j := CoveringEnd(rows, g, ask.from, ask.until, iv, e, c);
    if StartsBetween(rows, g, e.until, c + 1) {
      var start := StartIsClipped(rows, ask, g, e.until, c + 1);
    }
    assert FalseSince(rows, g, i, j, c);
  }

  lemma LastEndBefore(ask: Ask, g: nat, c: int, iv: Interval) returns (e: Interval)
    requires Proper(ask) && g in ask.gpus && Believed(ask, g, c) && iv in BusyOf(ask, g) && iv.from <= c < iv.until
    ensures e in BusyOf(ask, g) && iv.from <= e.until <= c && ask.from < e.until
    ensures forall start :: start in BusyOf(ask, g) ==> !(e.until < start.from <= c)
  {
    assert EndedSince(ask, g, iv.from, c);
    var end :| end in BusyOf(ask, g) && iv.from <= end.until <= c;
    e := LatestEnd(ask, g, iv, end.until, c);
  }

  /** A believed window that is not really free opens falsely. */
  lemma UnsoundOpensFalsely(rows: seq<Row>, ask: Ask, now: int, c: int, g: nat, t: int)
    requires Proper(ask) && Reflects(ask, rows) && ask.count == |ask.gpus| && (forall r :: r in rows ==> r.startAt < r.endAt)
    requires ask.until == ask.from + HORIZON && now <= ask.from && 60 * SECOND <= ask.duration
    requires BelievedWindow(ask, c) && g in ask.gpus && c <= t < c + ask.duration && BusyAt(ask, g, t)
    ensures FalseOpening(rows, ask.gpus, now, c)
  {
    AllCardsWindow(ask, c);
    hide BelievedWindow;
    var q :| 0 <= q < |BusyOf(ask, g)| && BusyOf(ask, g)[q].from <= t < BusyOf(ask, g)[q].until;
    var iv := BusyOf(ask, g)[q];
    assert StartsAt(ask, g, iv.from);
    BusyAround(ask, g, iv, c);
    hide StartsAt;
    forall h | h in ask.gpus
      ensures BusyAt(ask, h, c) <==> Reserved(rows, h, c)
      ensures !Reserved(rows, h, c) || TakenForFree(rows, h, now + 1, c)
      ensures !StartsBetween(rows, h, c, c + 60 * SECOND)
    {
      OneOfTheCards(rows, ask, now, c, h);
    }
  }

  lemma OneOfTheCards(rows: seq<Row>, ask: Ask, now: int, c: int, h: nat)
    requires Proper(ask) && Reflects(ask, rows) && h in ask.gpus && (forall r :: r in rows ==> r.startAt < r.endAt)
    requires ask.until == ask.from + HORIZON && now <= ask.from <= c && 60 * SECOND <= ask.duration && c + ask.duration <= ask.until
    requires Believed(ask, h, c) && forall t :: c < t < c + ask.duration ==> !StartsAt(ask, h, t)
    ensures BusyAt(ask, h, c) <==> Reserved(rows, h, c)
    ensures !Reserved(rows, h, c) || TakenForFree(rows, h, now + 1, c)
    ensures !StartsBetween(rows, h, c, c + 60 * SECOND)
  {
    ReflectsCard(ask, rows, h);
    BusyIsReserved(ask, rows, h, c);
    hide Believed, StartsAt, TakenForFree, Reserved, ClipsOf, Reflects, Proper;
    if StartsBetween(rows, h, c, c + 60 * SECOND) {
      var start := StartIsClipped(rows, ask, h, c, c + 60 * SECOND);
    }
    if BusyAt(ask, h, c) {
      var q :| 0 <= q < |BusyOf(ask, h)| && BusyOf(ask, h)[q].from <= c < BusyOf(ask, h)[q].until;
      FalseBeliefIsTaken(rows, ask, h, now, c, BusyOf(ask, h)[q]);
    }
  }

  lemma NoFalseOpeningIsSound(rows: seq<Row>, cards: set<nat>, gpus: seq<nat>, now: int, limit: int, from: int)
    requires DistinctCards(gpus) && gpus != [] && limit >= 60 && from >= now && (forall g :: g in gpus ==> g in cards)
    requires forall r :: r in rows ==> r.startAt < r.endAt
    requires forall c :: !FalseOpening(rows, gpus, now, c)
    ensures AnswersSoundly(QuestionOn(rows, cards, gpus, |gpus|, limit, from))
  {
    var ask := QuestionOn(rows, cards, gpus, |gpus|, limit, from);
    QuestionIsProper(rows, cards, gpus, |gpus|, limit, from);
    SweepIsFirstBelieved(ask);
    if EarliestStart(ask).Some? {
      var c := EarliestStart(ask).value;
      StartsInside(ask, c);
      hide EarliestStart, BelievedWindow, FalseOpening, Reflects, BusyAt, Proper;
      forall t | c <= t < c + ask.duration
        ensures |FreeAt(ask, t)| >= ask.count
      {
        forall g | g in ask.gpus
          ensures !BusyAt(ask, g, t)
        {
          if BusyAt(ask, g, t) {
            UnsoundOpensFalsely(rows, ask, now, c, g, t);
          }
        }
        Everyone(gpus, FreeAt(ask, t));
      }
    }
  }

  // ----- from such an instant an unsound answer can be provoked -----

  /** Of all the ends that make cards look free, one is the first; seen from just before it they all still look free. */
  lemma {:induction false} FirstFalseEnd(rows: seq<Row>, gpus: seq<nat>, now: int, c: int) returns (g: nat, i: nat, j: nat)
    requires forall h :: h in gpus ==> !Reserved(rows, h, c) || TakenForFree(rows, h, now + 1, c)
    requires exists h :: h in gpus && Reserved(rows, h, c)
    ensures g in gpus && i < |rows| && j < |rows| && FalseSince(rows, g, i, j, c) && now < rows[i].endAt
    ensures forall h :: h in gpus ==> !Reserved(rows, h, c) || TakenForFree(rows, h, rows[i].endAt, c)
  {
    hide Reserved, FalseSince;
    var n := |gpus| - 1;
    var init, last := gpus[..n], gpus[n];
    assert forall h :: h in gpus <==> h in init || h == last;
    if !exists h :: h in init && Reserved(rows, h, c) {
      g := last;
      i, j :| 0 <= i < |rows| && 0 <= j < |rows| && FalseSince(rows, last, i, j, c) && now + 1 <= rows[i].endAt;
    } else {
      g, i, j := FirstFalseEnd(rows, init, now, c);
      if Reserved(rows, last, c) && !TakenForFree(rows, last, rows[i].endAt, c) {
        var before := rows[i].endAt;
        g := last;
        i, j :| 0 <= i < |rows| && 0 <= j < |rows| && FalseSince(rows, last, i, j, c) && now + 1 <= rows[i].endAt;
        StillTaken(rows, init, before, rows[i].endAt, c);
      }
    }
  }

  lemma StillTaken(rows: seq<Row>, gpus: seq<nat>, before: int, since: int, c: int)
    requires since <= before && forall h :: h in gpus ==> !Reserved(rows, h, c) || TakenForFree(rows, h, before, c)
    ensures forall h :: h in gpus ==> !Reserved(rows, h, c) || TakenForFree(rows, h, since, c)
  {
    hide Reserved, FalseSince;
  }

  /** A card that is free at c and on which nothing starts for a minute is believed for that minute. */
  lemma FreeStaysBelieved(rows: seq<Row>, ask: Ask, g: nat, c: int, t: int)
    requires Proper(ask) && g in ask.gpus && BusyOf(ask, g) == ClipsOf(rows, g, ask.from, ask.until)
    requires ask.from <= c <= t < c + 60 * SECOND <= ask.until
    requires !Reserved(rows, g, c) && !StartsBetween(rows, g, c, c + 60 * SECOND)
    ensures Believed(ask, g, t)
  {
    BusyIsReserved(ask, rows, g, t);
    forall i | 0 <= i < |rows|
      ensures !Picks(At(g, t), rows[i])
    {
      assert OnCard(rows[i], g) ==> !(c < rows[i].startAt < c + 60 * SECOND) && !Picks(At(g, c), rows[i]);
    }
    hide Reserved, ClipsOf;
    FreeIsBelieved(ask, g, t);
  }

  /** A card that is taken for free since an end the question can see is believed for the minute, too. */
  lemma TakenStaysBelieved(rows: seq<Row>, ask: Ask, g: nat, c: int, t: int)
    requires Proper(ask) && g in ask.gpus && BusyOf(ask, g) == ClipsOf(rows, g, ask.from, ask.until)
    requires (forall r :: r in rows ==> r.startAt < r.endAt)
    requires ask.from <= c <= t < c + 60 * SECOND <= ask.until
    requires TakenForFree(rows, g, ask.from + 1, c) && !StartsBetween(rows, g, c, c + 60 * SECOND)
    ensures Believed(ask, g, t)
  {
    BeliefFromRows(rows, ask, g, t);
    var i, j :| 0 <= i < |rows| && 0 <= j < |rows| && FalseSince(rows, g, i, j, c) && ask.from + 1 <= rows[i].endAt;
    forall k | 0 <= k < |rows| && OnCard(rows[k], g) && rows[k].startAt <= t && ask.from < rows[k].endAt
      ensures FollowedByEnd(rows, g, ask.from, t, rows[k].startAt)
    {
      assert rows[k].startAt <= rows[i].endAt;
    }
  }

  lemma NothingStarts(rows: seq<Row>, ask: Ask, g: nat, c: int, t: int)
    requires BusyOf(ask, g) == ClipsOf(rows, g, ask.from, ask.until)
    requires ask.from <= c < t < c + 60 * SECOND && !StartsBetween(rows, g, c, c + 60 * SECOND)
    ensures !StartsAt(ask, g, t)
  {
    ClipsComeFromRows(rows, g, ask.from, ask.until);
    forall q | 0 <= q < |BusyOf(ask, g)|
      ensures BusyOf(ask, g)[q].from != t
    {
      assert BusyOf(ask, g)[q] in BusyOf(ask, g);
      var k :| 0 <= k < |rows| && Picks(Within(g, ask.from, ask.until), rows[k]) && BusyOf(ask, g)[q] == Clip(rows[k], ask.from, ask.until);
      assert OnCard(rows[k], g);
    }
  }

  lemma OpeningIsBelieved(rows: seq<Row>, ask: Ask, c: int)
    requires Proper(ask) && Reflects(ask, rows) && ask.count == |ask.gpus| && (forall r :: r in rows ==> r.startAt < r.endAt)
    requires ask.duration == 60 * SECOND && ask.from <= c && c + 60 * SECOND <= ask.until
    requires forall g :: g in ask.gpus ==> !Reserved(rows, g, c) || TakenForFree(rows, g, ask.from + 1, c)
    requires forall g :: g in ask.gpus ==> !StartsBetween(rows, g, c, c + 60 * SECOND)
    ensures BelievedWindow(ask, c)
  {
    AllCardsWindow(ask, c);
    hide BelievedWindow, Believed, StartsAt, Reserved, TakenForFree, StartsBetween, Proper, Reflects;
    forall g, t | g in ask.gpus && c <= t < c + 60 * SECOND
      ensures Believed(ask, g, t) && (c < t ==> !StartsAt(ask, g, t))
    {
      ReflectsCard(ask, rows, g);
      if Reserved(rows, g, c) {
        TakenStaysBelieved(rows, ask, g, c, t);
      } else {
        FreeStaysBelieved(rows, ask, g, c, t);
      }
      if c < t {
        NothingStarts(rows, ask, g, c, t);
      }
    }
  }

  /** The reservation that ends first keeps its card from being believed as the search starts, the other keeps it busy until c. */
  lemma BusyUntilOpening(rows: seq<Row>, ask: Ask, g: nat, i: nat, j: nat, c: int)
    requires i < |rows| && j < |rows| && FalseSince(rows, g, i, j, c) && rows[i].startAt < rows[i].endAt
    requires Proper(ask) && g in ask.gpus
    requires BusyOf(ask, g) == ClipsOf(rows, g, ask.from, ask.until) && ask.from == rows[i].endAt - 1 && c < ask.until
    ensures !Believed(ask, g, ask.from)
    ensures forall t :: ask.from < t <= c ==> BusyAt(ask, g, t)
  {
    ClipsComeFromRows(rows, g, ask.from, ask.until);
    var own, other := Clip(rows[i], ask.from, ask.until), Clip(rows[j], ask.from, ask.until);
    assert Picks(Within(g, ask.from, ask.until), rows[i]) && Picks(Within(g, ask.from, ask.until), rows[j]);
    assert own in BusyOf(ask, g) && other in BusyOf(ask, g) && own.from == ask.from;
    forall t | ask.from < t <= c
      ensures BusyAt(ask, g, t)
    {
      BusyAround(ask, g, other, t);
    }
    forall e | e in BusyOf(ask, g)
      ensures ask.from < e.until
    {
    }
    assert !EndedSince(ask, g, own.from, ask.from);
  }

  /** Asked for all cards for one minute from just before that first end, the sweep answers with a window that is not free. */
  lemma FalseOpeningFools(rows: seq<Row>, cards: set<nat>, gpus: seq<nat>, now: int, c: int) returns (from: int)
    requires DistinctCards(gpus) && (forall g :: g in gpus ==> g in cards) && (forall r :: r in rows ==> r.startAt < r.endAt)
    requires FalseOpening(rows, gpus, now, c)
    ensures from >= now && !AnswersSoundly(QuestionOn(rows, cards, gpus, |gpus|, 60, from))
  {
    var g, i, j := FirstFalseEnd(rows, gpus, now, c);
    from := rows[i].endAt - 1;
    assert rows[i] in rows;
    var ask := QuestionOn(rows, cards, gpus, |gpus|, 60, from);
    QuestionIsProper(rows, cards, gpus, |gpus|, 60, from);
    OpeningIsBelieved(rows, ask, c);
    ReflectsCard(ask, rows, g);
    BusyUntilOpening(rows, ask, g, i, j, c);
    AnswerIsFalse(ask, g, c);
  }

  lemma AnswerIsFalse(ask: Ask, g: nat, c: int)
    requires Proper(ask) && g in ask.gpus && ask.count == |ask.gpus| && BelievedWindow(ask, c)
    requires !Believed(ask, g, ask.from) && forall t :: ask.from < t <= c ==> BusyAt(ask, g, t)
    ensures !AnswersSoundly(ask)
  {
    SweepIsFirstBelieved(ask);
    var first := EarliestStart(ask).value;
    StartsInside(ask, first);
    AllCardsWindow(ask, first);
    hide BelievedWindow, Believed, BusyAt, StartsAt, EarliestStart, Proper;
    assert Believed(ask, g, first);
    assert BusyAt(ask, g, first);
    NotAllFree(ask, g, first);
  }

  lemma NotAllFree(ask: Ask, g: nat, c: int)
    requires Proper(ask) && g in ask.gpus && ask.count == |ask.gpus| && BusyAt(ask, g, c)
    ensures !Covered(ask, c)
  {
    hide BusyAt;
    Everyone(ask.gpus, FreeAt(ask, c));
    assert g !in FreeAt(ask, c);
    assert ask.duration >= 1 && |FreeAt(ask, c)| < ask.count;
  }

  /**
   For all the cards of a server together: every limit `recommend` accepts, from now or any later time on, is answered
   with a window in which every card is really free, exactly when there is no instant at which each card is free or
   taken for free, not all are free, and nothing starts on any for a minute.
   */
  lemma AllCardsSoundExactly(rows: seq<Row>, cards: set<nat>, gpus: seq<nat>, now: int)
    requires DistinctCards(gpus) && gpus != [] && (forall g :: g in gpus ==> g in cards)
    requires forall r :: r in rows ==> r.startAt < r.endAt
    ensures (forall limit, from :: limit >= 60 && from >= now ==> AnswersSoundly(QuestionOn(rows, cards, gpus, |gpus|, limit, from)))
            <==> forall c :: !FalseOpening(rows, gpus, now, c)
  {
    hide AnswersSoundly, QuestionOn, FalseOpening, DistinctCards;
    if forall c :: !FalseOpening(rows, gpus, now, c) {
      forall limit, from | limit >= 60 && from >= now
        ensures AnswersSoundly(QuestionOn(rows, cards, gpus, |gpus|, limit, from))
      {
        NoFalseOpeningIsSound(rows, cards, gpus, now, limit, from);
      }
    } else {
      var c :| FalseOpening(rows, gpus, now, c);
      var from := FalseOpeningFools(rows, cards, gpus, now, c);
      assert !AnswersSoundly(QuestionOn(rows, cards, gpus, |gpus|, 60, from));
    }
  }

  // ------------------------------------------------------------------------------- a single card

  /** Every coming end that another reservation of the card covers is followed by a start within the minute. */
  ghost predicate ReentriesAreShort(rows: seq<Row>, gpu: nat, now: int) {
    forall i, j :: 0 <= i < |rows| && 0 <= j < |rows| && CoversEnd(rows, gpu, i, j) && now < rows[i].endAt ==>
      StartsBetween(rows, gpu, rows[i].endAt, rows[i].endAt + 60 * SECOND)
  }

  /** For a single card the instant to look for is the end itself. */
  lemma OpeningIsLongReentry(rows: seq<Row>, gpu: nat, now: int)
    ensures (forall c :: !FalseOpening(rows, [gpu], now, c)) <==> ReentriesAreShort(rows, gpu, now)
  {
    if i, j :| 0 <= i < |rows| && 0 <= j < |rows| && CoversEnd(rows, gpu, i, j) && now < rows[i].endAt
               && !StartsBetween(rows, gpu, rows[i].endAt, rows[i].endAt + 60 * SECOND) {
      var u := rows[i].endAt;
      assert Picks(At(gpu, u), rows[j]);
      assert !StartsBetween(rows, gpu, u, u + 1);
      assert FalseSince(rows, gpu, i, j, u);
      assert gpu in [gpu] && TakenForFree(rows, gpu, now + 1, u);
      assert FalseOpening(rows, [gpu], now, u);
    }
    if c :| FalseOpening(rows, [gpu], now, c) {
      assert gpu in [gpu];
      LongFromOpening(rows, gpu, now, c);
    }
  }

  lemma LongFromOpening(rows: seq<Row>, gpu: nat, now: int, c: int)
    requires TakenForFree(rows, gpu, now + 1, c) && !StartsBetween(rows, gpu, c, c + 60 * SECOND)
    ensures !ReentriesAreShort(rows, gpu, now)
  {
    var i, j :| 0 <= i < |rows| && 0 <= j < |rows| && FalseSince(rows, gpu, i, j, c) && now + 1 <= rows[i].endAt;
    var u := rows[i].endAt;
    forall k | 0 <= k < |rows| && OnCard(rows[k], gpu)
      ensures !(u < rows[k].startAt < u + 60 * SECOND)
    {
      assert !(u < rows[k].startAt < c + 1) && !(c < rows[k].startAt < c + 60 * SECOND);
    }
    assert !StartsBetween(rows, gpu, u, u + 60 * SECOND);
  }

  /**
   For a server with one card: every limit `recommend` accepts, from now or any later time on, is answered with a
   window in which the card is really free, exactly when each coming end that another reservation of the card covers
   is followed by a start of the card within a minute.
   */
  lemma OneCardSoundExactly(rows: seq<Row>, cards: set<nat>, gpu: nat, now: int)
    requires gpu in cards && forall r :: r in rows ==> r.startAt < r.endAt
    ensures (forall limit, from :: limit >= 60 && from >= now ==> AnswersSoundly(QuestionOn(rows, cards, [gpu], 1, limit, from)))
            <==> ReentriesAreShort(rows, gpu, now)
  {
    hide AnswersSoundly, QuestionOn, FalseOpening, ReentriesAreShort;
    AllCardsSoundExactly(rows, cards, [gpu], now);
    OpeningIsLongReentry(rows, gpu, now);
  }

  // ----------------------------------------------------------------------------- a failing input

  function HourFrom(startAt: int): Row {
    Row(1, 1, Some(7), 1, 1, startAt, startAt + HOUR, Scheduled, None, None, None, None, None, None, None)
  }

  const BACK_TO_BACK := [HourFrom(0), HourFrom(HOUR)]

  lemma BackToBackStretches(busy: map<nat, seq<Interval>>)
    requires busy == BusyMap(BACK_TO_BACK, {7}, 0, HORIZON)
    ensures busy == map[7 := [Interval(0, HOUR), Interval(HOUR, 2 * HOUR)]]
  {
    assert BACK_TO_BACK[..1] == [HourFrom(0)] && BACK_TO_BACK[..1][..0] == [];
    assert ClipsOf([], 7, 0, HORIZON) == [];
    assert ClipsOf(BACK_TO_BACK[..1], 7, 0, HORIZON) == [Interval(0, HOUR)];
    assert ClipsOf(BACK_TO_BACK, 7, 0, HORIZON) == [Interval(0, HOUR), Interval(HOUR, 2 * HOUR)];
  }

  lemma BackToBackAnswer(ask: Ask)
    requires ask == Ask([7], map[7 := [Interval(0, HOUR), Interval(HOUR, 2 * HOUR)]], 0, HORIZON, 1, HOUR)
    ensures WindowOf(ask) == Some(Window([], HOUR, 2 * HOUR))
  {
    var first, second := Interval(0, HOUR), Interval(HOUR, 2 * HOUR);
    assert BusyOf(ask, 7) == [first, second] && BusyOf(ask, 7)[0] == first && BusyOf(ask, 7)[1] == second;
    assert Proper(ask);
    BusyAround(ask, 7, second, HOUR);
    BackToBackBelief(ask);
    hide Believed, StartsAt, EarliestStart, Proper, BelievedWindow, BusyAt;
    SweepIsFirstBelieved(ask);
    assert EarliestStart(ask) == Some(HOUR);
    assert ask.gpus[..0] == [];
    assert FirstFree(ask, [], HOUR) == [];
    assert FirstFree(ask, ask.gpus, HOUR) == [];
  }

  lemma BackToBackBelief(ask: Ask)
    requires ask == Ask([7], map[7 := [Interval(0, HOUR), Interval(HOUR, 2 * HOUR)]], 0, HORIZON, 1, HOUR)
    ensures BelievedWindow(ask, HOUR) && forall c :: BelievedWindow(ask, c) ==> HOUR <= c
  {
    var first, second := Interval(0, HOUR), Interval(HOUR, 2 * HOUR);
    assert BusyOf(ask, 7) == [first, second] && BusyOf(ask, 7)[0] == first && BusyOf(ask, 7)[1] == second;
    forall t | HOUR <= t < 2 * HOUR
      ensures Believed(ask, 7, t) && (HOUR < t ==> !StartsAt(ask, 7, t))
    {
      assert first.until == HOUR;
      assert EndedSince(ask, 7, 0, t) && EndedSince(ask, 7, HOUR, t);
    }
    forall t | 0 <= t < HOUR
      ensures !Believed(ask, 7, t)
    {
      assert first in BusyOf(ask, 7) && !EndedSince(ask, 7, 0, t);
    }
    AllCardsWindow(ask, HOUR);
    hide Believed, StartsAt;
    forall c | BelievedWindow(ask, c)
      ensures HOUR <= c
    {
      AllCardsWindow(ask, c);
      assert Believed(ask, 7, c);
    }
  }

  /**
   Two back-to-back bookings of the only card for an hour each, and a request for an hour from now: `recommend` offers
   the second booking's hour, with no card in it.
   */
  lemma BackToBackIsOffered()
    ensures Recommended([ServerCards(1, [7])], BACK_TO_BACK, 1, 3600, None, 0, 3) == Ok([Candidate(1, Window([], HOUR, 2 * HOUR))])
    ensures forall t :: HOUR <= t < 2 * HOUR ==> Reserved(BACK_TO_BACK, 7, t)
  {
    var servers, wish := [ServerCards(1, [7])], Wish(1, HOUR, 0);
    BackToBackCandidates(servers, wish);
    hide AllCandidates, Sort, Reserved;
    SortOfOne(Candidate(1, Window([], HOUR, 2 * HOUR)));
    forall t | HOUR <= t < 2 * HOUR
      ensures Reserved(BACK_TO_BACK, 7, t)
    {
      SecondIsReserved(t);
    }
  }

  lemma SecondIsReserved(t: int)
    requires HOUR <= t < 2 * HOUR
    ensures Reserved(BACK_TO_BACK, 7, t)
  {
    assert Picks(At(7, t), BACK_TO_BACK[1]);
  }

  lemma BackToBackCandidates(servers: seq<ServerCards>, wish: Wish)
    requires servers == [ServerCards(1, [7])] && wish == Wish(1, HOUR, 0)
    ensures AllCandidates(servers, BACK_TO_BACK, wish) == [Candidate(1, Window([], HOUR, 2 * HOUR))]
  {
    JustOneServer(servers[0], 1);
    assert CardSet([7]) == {7};
    var busy := BusyMap(BACK_TO_BACK, {7}, 0, HORIZON);
    BackToBackStretches(busy);
    hide BusyMap, CandidatesOf, Eligible, AllCards, WindowOf;
    BackToBackAnswer(Question([7], busy, wish));
    OneCandidate(servers, wish, busy);
  }

  /** A single server with enough cards is the one eligible, and its cards are all the cards. */
  lemma JustOneServer(server: ServerCards, count: nat)
    requires |server.gpus| >= count
    ensures Eligible([server], count) == [server] && AllCards([server]) == CardSet(server.gpus)
  {
    var servers := [server];
    assert servers[..0] == [];
    assert Eligible(servers[..0], count) == [];
    assert AllCards(servers[..0]) == {};
  }

  lemma OneCandidate(servers: seq<ServerCards>, wish: Wish, busy: map<nat, seq<Interval>>)
    requires |servers| == 1 && WindowOf(Question(servers[0].gpus, busy, wish)).Some?
    ensures CandidatesOf(servers, busy, wish) == [Candidate(servers[0].serverId, WindowOf(Question(servers[0].gpus, busy, wish)).value)]
  {
    hide WindowOf, Question;
    assert servers[..0] == [];
    assert CandidatesOf(servers[..0], busy, wish) == [];
  }

  lemma SortOfOne(c: Candidate)
    ensures Sort([c], StartLe) == [c]
  {
    assert [c][..0] == [];
  }
}
