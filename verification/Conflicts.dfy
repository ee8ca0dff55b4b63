/**
 The conflict matrix of the reservation service, and what it is for: at every instant
 a card's stack of live reservations fits the card.
 */
module Conflicts {
  import opened Prelude
  import opened Reservations

  /** One row's worth of input to create, preview and modify. */
  datatype Item = Item(
    serverId: nat,
    gpuId: Option<nat>,
    startAt: int,
    endAt: int,
    linkId: nat,
    memoryMb: Option<nat>,
    sharePct: Option<Share>
  )

  /** A stored row as a query returns it. */
  datatype Entry = Entry(id: nat, row: Row)

  datatype Conflict =
    | ExclusiveConflict(ids: seq<nat>)
    | MixExclusiveShared(ids: seq<nat>)
    | MemoryExceeded(ids: seq<nat>, usedMb: nat, wouldUseMb: nat, totalMb: nat)
    | ComputeExceeded(ids: seq<nat>, usedPct: nat, wouldUsePct: nat)

  // ---------------------------------------------------------------- the code

  /** Which live rows of a card: those meeting a half-open window, or those covering an instant. */
  datatype Selector = Within(gpu: nat, from: int, until: int) | At(gpu: nat, instant: int)

  predicate Picks(sel: Selector, r: Row) {
    && Live(r)
    && r.gpuId == Some(sel.gpu)
    && match sel
       case Within(_, from, until) => r.startAt < until && r.endAt > from
       case At(_, instant) => r.startAt <= instant < r.endAt
  }

  function Select(rows: seq<Row>, sel: Selector): seq<Entry> {
    if rows == [] then []
    else
      var n := |rows| - 1;
      Select(rows[..n], sel) + (if Picks(sel, rows[n]) then [Entry(n, rows[n])] else [])
  }

  function Ids(window: seq<Entry>): seq<nat> {
    if window == [] then []
    else Ids(window[..|window| - 1]) + [window[|window| - 1].id]
  }

  function SharedRows(window: seq<Entry>): seq<Entry> {
    if window == [] then []
    else
      var last := window[|window| - 1];
      SharedRows(window[..|window| - 1]) + (if last.row.memoryMb.Some? then [last] else [])
  }

  function ExclusiveRows(window: seq<Entry>): seq<Entry> {
    if window == [] then []
    else
      var last := window[|window| - 1];
      ExclusiveRows(window[..|window| - 1]) + (if last.row.memoryMb.None? then [last] else [])
  }

  function DeclaredRows(window: seq<Entry>): seq<Entry> {
    if window == [] then []
    else
      var last := window[|window| - 1];
      DeclaredRows(window[..|window| - 1]) + (if last.row.sharePct.Some? then [last] else [])
  }

  function UsedMb(window: seq<Entry>): nat {
    if window == [] then 0
    else UsedMb(window[..|window| - 1]) + window[|window| - 1].row.memoryMb.GetOr(0)
  }

  function UsedPct(window: seq<Entry>): nat {
    if window == [] then 0
    else UsedPct(window[..|window| - 1]) + Pct(window[|window| - 1].row)
  }

  function Pct(r: Row): nat {
    if r.sharePct.Some? then r.sharePct.value else 0
  }

  /** `_classify_conflict`: the first rule the new item breaks against the rows in its window. */
  function ClassifyConflict(item: Item, window: seq<Entry>, totalMb: nat): Option<Conflict> {
    if window == [] then None
    else if item.memoryMb.None? then
      if SharedRows(window) != [] then Some(MixExclusiveShared(Ids(SharedRows(window))))
      else Some(ExclusiveConflict(Ids(window)))
    else if ExclusiveRows(window) != [] then Some(MixExclusiveShared(Ids(ExclusiveRows(window))))
    else if totalMb != 0 && UsedMb(window) + item.memoryMb.value > totalMb then
      Some(MemoryExceeded(Ids(window), UsedMb(window), item.memoryMb.value, totalMb))
    else if item.sharePct.Some? && UsedPct(window) + item.sharePct.value > 100 then
      Some(ComputeExceeded(Ids(DeclaredRows(window)), UsedPct(window), item.sharePct.value))
    else None
  }

  /** `gpu.memory_total_mb or 0`: 0 stands for a card whose size is not known. */
  function CardMb(cards: map<nat, Option<nat>>, gpu: nat): nat {
    if gpu in cards then cards[gpu].GetOr(0) else 0
  }

  // ------------------------------------------------------ what it is meant to keep

  datatype Measure = Count | Exclusive | Memory | Compute

  function Weight(m: Measure, r: Row): nat {
    match m
    case Count => 1
    case Exclusive => if r.memoryMb.None? then 1 else 0
    case Memory => r.memoryMb.GetOr(0)
    case Compute => Pct(r)
  }

  function Total(rows: seq<Row>, sel: Selector, m: Measure): nat {
    if rows == [] then 0
    else
      var n := |rows| - 1;
      Total(rows[..n], sel, m) + Load(rows[n], sel, m)
  }

  function Load(r: Row, sel: Selector, m: Measure): nat {
    if Picks(sel, r) then Weight(m, r) else 0
  }

  /** Two or more live rows covering an instant are all shared, and together fit the card. */
  predicate SafeAt(rows: seq<Row>, cards: map<nat, Option<nat>>, gpu: nat, t: int) {
    Total(rows, At(gpu, t), Count) >= 2 ==>
      && Total(rows, At(gpu, t), Exclusive) == 0
      && (CardMb(cards, gpu) != 0 ==> Total(rows, At(gpu, t), Memory) <= CardMb(cards, gpu))
      && Total(rows, At(gpu, t), Compute) <= 100
  }

  ghost predicate CapacitySafe(rows: seq<Row>, cards: map<nat, Option<nat>>) {
    forall gpu: nat, t: int :: SafeAt(rows, cards, gpu, t)
  }

  /** No exclusive row shares an instant of its card with another live row. */
  ghost predicate ExclusiveApart(rows: seq<Row>) {
    forall i, j :: 0 <= i < |rows| && 0 <= j < |rows| && i != j ==> Apart(rows[i], rows[j])
  }

  predicate Apart(a: Row, b: Row) {
    (Live(a) && Live(b) && a.gpuId.Some? && a.gpuId == b.gpuId && a.startAt < b.endAt && b.startAt < a.endAt) ==>
      a.memoryMb.Some? && b.memoryMb.Some?
  }

  // -------------------------------------------------------------- the list and the totals

  /** The query result grows with the table. */
  lemma SelectGrows(rows: seq<Row>, sel: Selector)
    requires rows != []
    ensures var n := |rows| - 1;
      Select(rows, sel) == if Picks(sel, rows[n]) then Select(rows[..n], sel) + [Entry(n, rows[n])] else Select(rows[..n], sel)
  {
  }

  lemma {:induction false} WindowCount(rows: seq<Row>, sel: Selector)
    ensures |Select(rows, sel)| == Total(rows, sel, Count)
  {
    if rows != [] {
      WindowCount(rows[..|rows| - 1], sel);
      SelectGrows(rows, sel);
    }
  }

  lemma PushExclusive(w: seq<Entry>, e: Entry)
    ensures |ExclusiveRows(w + [e])| == |ExclusiveRows(w)| + (if e.row.memoryMb.None? then 1 else 0)
    ensures |SharedRows(w + [e])| == |SharedRows(w)| + (if e.row.memoryMb.Some? then 1 else 0)
  {
    assert (w + [e])[..|w|] == w;
  }

  lemma {:induction false} WindowModes(rows: seq<Row>, sel: Selector)
    ensures |ExclusiveRows(Select(rows, sel))| == Total(rows, sel, Exclusive)
    ensures |SharedRows(Select(rows, sel))| == Total(rows, sel, Count) - Total(rows, sel, Exclusive)
  {
    if rows != [] {
      var n := |rows| - 1;
      WindowModes(rows[..n], sel);
      SelectGrows(rows, sel);
      PushExclusive(Select(rows[..n], sel), Entry(n, rows[n]));
    }
  }

  lemma PushUsed(w: seq<Entry>, e: Entry)
    ensures UsedMb(w + [e]) == UsedMb(w) + e.row.memoryMb.GetOr(0)
    ensures UsedPct(w + [e]) == UsedPct(w) + Pct(e.row)
  {
    assert (w + [e])[..|w|] == w;
  }

  lemma {:induction false} WindowSums(rows: seq<Row>, sel: Selector)
    ensures UsedMb(Select(rows, sel)) == Total(rows, sel, Memory)
    ensures UsedPct(Select(rows, sel)) == Total(rows, sel, Compute)
  {
    if rows != [] {
      var n := |rows| - 1;
      WindowSums(rows[..n], sel);
      SelectGrows(rows, sel);
      PushUsed(Select(rows[..n], sel), Entry(n, rows[n]));
    }
  }

  /** The sums the code takes over the query result are the totals over the table. */
  lemma WindowTotals(rows: seq<Row>, sel: Selector)
    ensures |Select(rows, sel)| == Total(rows, sel, Count)
    ensures |ExclusiveRows(Select(rows, sel))| == Total(rows, sel, Exclusive)
    ensures |SharedRows(Select(rows, sel))| == Total(rows, sel, Count) - Total(rows, sel, Exclusive)
    ensures UsedMb(Select(rows, sel)) == Total(rows, sel, Memory)
    ensures UsedPct(Select(rows, sel)) == Total(rows, sel, Compute)
  {
    WindowCount(rows, sel);
    WindowModes(rows, sel);
    WindowSums(rows, sel);
  }

  /** Every row covering an instant of a window is in the window: the window sum dominates the peak. */
  lemma {:induction false} WindowDominatesInstant(rows: seq<Row>, gpu: nat, from: int, until: int, t: int, m: Measure)
    requires from <= t < until
    ensures Total(rows, At(gpu, t), m) <= Total(rows, Within(gpu, from, until), m)
  {
    if rows != [] {
      WindowDominatesInstant(rows[..|rows| - 1], gpu, from, until, t, m);
    }
  }

  lemma {:induction false} ComputeBound(rows: seq<Row>, sel: Selector)
    ensures Total(rows, sel, Compute) <= 100 * Total(rows, sel, Count)
  {
    if rows != [] {
      ComputeBound(rows[..|rows| - 1], sel);
    }
  }

  lemma {:induction false} ExclusiveBound(rows: seq<Row>, sel: Selector)
    ensures Total(rows, sel, Exclusive) <= Total(rows, sel, Count)
    ensures Total(rows, sel, Exclusive) == 0 <==> forall i :: 0 <= i < |rows| && Picks(sel, rows[i]) ==> rows[i].memoryMb.Some?
  {
    if rows != [] {
      var n := |rows| - 1;
      ExclusiveBound(rows[..n], sel);
      assert forall i :: 0 <= i < n ==> rows[..n][i] == rows[i];
      assert Total(rows, sel, Exclusive) == Total(rows[..n], sel, Exclusive) + Load(rows[n], sel, Exclusive);
    }
  }

  // ------------------------------------------------------------------- adding one row

  /** `after` holds the rows of `before` with one more, `r`, somewhere. */
  ghost predicate Stacked(before: seq<Row>, after: seq<Row>, r: Row) {
    forall sel: Selector, m: Measure :: Total(after, sel, m) == Total(before, sel, m) + Load(r, sel, m)
  }

  lemma AppendStacks(rows: seq<Row>, r: Row)
    ensures Stacked(rows, rows + [r], r)
  {
    assert (rows + [r])[..|rows|] == rows;
  }

  /** A row that is not live weighs nothing, so writing a live row over it stacks that row. */
  lemma OverwriteStacks(rows: seq<Row>, i: nat, r: Row)
    requires i < |rows| && !Live(rows[i])
    ensures Stacked(rows, rows[i := r], r)
  {
    forall sel: Selector, m: Measure
      ensures Total(rows[i := r], sel, m) == Total(rows, sel, m) + Load(r, sel, m)
    {
      OverwriteTotal(rows, i, r, sel, m);
    }
  }

  lemma {:induction false} OverwriteTotal(rows: seq<Row>, i: nat, r: Row, sel: Selector, m: Measure)
    requires i < |rows|
    ensures Total(rows[i := r], sel, m) == Total(rows, sel, m) - Load(rows[i], sel, m) + Load(r, sel, m)
  {
    var n := |rows| - 1;
    if i < n {
      OverwriteTotal(rows[..n], i, r, sel, m);
      assert rows[i := r][..n] == rows[..n][i := r];
    } else {
      assert rows[i := r][..n] == rows[..n];
    }
  }

  function ItemOf(r: Row): Item {
    Item(r.serverId, r.gpuId, r.startAt, r.endAt, r.linkId, r.memoryMb, r.sharePct)
  }

  /** What the conflict matrix says of an item against the live rows in its window. */
  function Verdict(item: Item, rows: seq<Row>, cards: map<nat, Option<nat>>): Option<Conflict>
    requires item.gpuId.Some?
  {
    ClassifyConflict(
      item, Select(rows, Within(item.gpuId.value, item.startAt, item.endAt)), CardMb(cards, item.gpuId.value))
  }

  /** The key step: a row the matrix admits keeps every instant of every card safe. */
  lemma AdmittedRowIsSafe(before: seq<Row>, after: seq<Row>, r: Row, cards: map<nat, Option<nat>>)
    requires CapacitySafe(before, cards)
    requires Stacked(before, after, r)
    requires r.gpuId.Some? ==> Verdict(ItemOf(r), before, cards).None?
    ensures CapacitySafe(after, cards)
  {
    forall gpu: nat, t: int
      ensures SafeAt(after, cards, gpu, t)
    {
      assert SafeAt(before, cards, gpu, t);
      if Picks(At(gpu, t), r) {
        AdmittedStep(before, after, r, cards, gpu, t);
      }
    }
  }

  lemma AdmittedStep(before: seq<Row>, after: seq<Row>, r: Row, cards: map<nat, Option<nat>>, gpu: nat, t: int)
    requires SafeAt(before, cards, gpu, t)
    requires Stacked(before, after, r)
    requires Picks(At(gpu, t), r) && Verdict(ItemOf(r), before, cards).None?
    ensures SafeAt(after, cards, gpu, t)
  {
    var at, w := At(gpu, t), Within(gpu, r.startAt, r.endAt);
    WindowTotals(before, w);
    ComputeBound(before, at);
    WindowDominatesInstant(before, gpu, r.startAt, r.endAt, t, Count);
    WindowDominatesInstant(before, gpu, r.startAt, r.endAt, t, Exclusive);
    WindowDominatesInstant(before, gpu, r.startAt, r.endAt, t, Memory);
    WindowDominatesInstant(before, gpu, r.startAt, r.endAt, t, Compute);
    assert forall m: Measure :: Total(after, at, m) == Total(before, at, m) + Load(r, at, m);
  }

  // ------------------------------------------------------------------ taking weight away

  /** Same rows on the same cards at the same times, with none brought back to life. */
  ghost predicate Thins(before: seq<Row>, after: seq<Row>) {
    && |before| == |after|
    && forall i :: 0 <= i < |before| ==> ThinsRow(before[i], after[i])
  }

  predicate ThinsRow(a: Row, b: Row) {
    Live(b) ==> Live(a) && ItemOf(a) == ItemOf(b)
  }

  lemma {:induction false} ThinTotal(before: seq<Row>, after: seq<Row>, sel: Selector, m: Measure)
    requires Thins(before, after)
    ensures Total(after, sel, m) <= Total(before, sel, m)
  {
    if before != [] {
      var n := |before| - 1;
      assert ThinsRow(before[n], after[n]);
      ThinTotal(before[..n], after[..n], sel, m);
    }
  }

  lemma ThinKeepsSafe(before: seq<Row>, after: seq<Row>, cards: map<nat, Option<nat>>)
    requires CapacitySafe(before, cards) && Thins(before, after)
    ensures CapacitySafe(after, cards)
  {
    forall gpu: nat, t: int
      ensures SafeAt(after, cards, gpu, t)
    {
      assert SafeAt(before, cards, gpu, t);
      ThinTotal(before, after, At(gpu, t), Count);
      ThinTotal(before, after, At(gpu, t), Exclusive);
      ThinTotal(before, after, At(gpu, t), Memory);
      ThinTotal(before, after, At(gpu, t), Compute);
    }
  }

  // -------------------------------------------------------- finitely many instants decide

  /** Every stack is highest where one of its rows starts, so checking the starts is exact. */
  lemma SafeAtStarts(rows: seq<Row>, cards: map<nat, Option<nat>>)
    ensures CapacitySafe(rows, cards) <==>
            forall i :: 0 <= i < |rows| && Live(rows[i]) && rows[i].gpuId.Some? ==>
              SafeAt(rows, cards, rows[i].gpuId.value, rows[i].startAt)
  {
    if forall i :: 0 <= i < |rows| && Live(rows[i]) && rows[i].gpuId.Some? ==>
         SafeAt(rows, cards, rows[i].gpuId.value, rows[i].startAt)
    {
      forall gpu: nat, t: int
        ensures SafeAt(rows, cards, gpu, t)
      {
        if Total(rows, At(gpu, t), Count) > 0 {
          var j := LatestStart(rows, gpu, t);
          var s := rows[j].startAt;
          PeakAtLatestStart(rows, gpu, t, s, Count);
          PeakAtLatestStart(rows, gpu, t, s, Exclusive);
          PeakAtLatestStart(rows, gpu, t, s, Memory);
          PeakAtLatestStart(rows, gpu, t, s, Compute);
        }
      }
    }
  }

  lemma {:induction false} LatestStart(rows: seq<Row>, gpu: nat, t: int) returns (j: nat)
    requires Total(rows, At(gpu, t), Count) > 0
    ensures j < |rows| && Picks(At(gpu, t), rows[j])
    ensures forall i :: 0 <= i < |rows| && Picks(At(gpu, t), rows[i]) ==> rows[i].startAt <= rows[j].startAt
  {
    var n := |rows| - 1;
    assert forall i :: 0 <= i < n ==> rows[..n][i] == rows[i];
    if Total(rows[..n], At(gpu, t), Count) == 0 {
      j := n;
      NonePicked(rows[..n], At(gpu, t));
    } else {
      j := LatestStart(rows[..n], gpu, t);
      if Picks(At(gpu, t), rows[n]) && rows[n].startAt > rows[j].startAt {
        j := n;
      }
    }
  }

  lemma {:induction false} NonePicked(rows: seq<Row>, sel: Selector)
    requires Total(rows, sel, Count) == 0
    ensures forall i :: 0 <= i < |rows| ==> !Picks(sel, rows[i])
  {
    if rows != [] {
      var n := |rows| - 1;
      NonePicked(rows[..n], sel);
      assert forall i :: 0 <= i < n ==> rows[..n][i] == rows[i];
    }
  }

  lemma {:induction false} PeakAtLatestStart(rows: seq<Row>, gpu: nat, t: int, s: int, m: Measure)
    requires s <= t
    requires forall i :: 0 <= i < |rows| && Picks(At(gpu, t), rows[i]) ==> rows[i].startAt <= s
    ensures Total(rows, At(gpu, t), m) <= Total(rows, At(gpu, s), m)
  {
    if rows != [] {
      var n := |rows| - 1;
      assert forall i :: 0 <= i < n ==> rows[..n][i] == rows[i];
      PeakAtLatestStart(rows[..n], gpu, t, s, m);
    }
  }

  // ---------------------------------------------------------------- exclusive rows alone

  /** A stack that fits every card keeps exclusive rows apart. */
  lemma CapacityKeepsExclusiveApart(rows: seq<Row>, cards: map<nat, Option<nat>>)
    requires CapacitySafe(rows, cards)
    requires forall i :: 0 <= i < |rows| ==> rows[i].startAt < rows[i].endAt
    ensures ExclusiveApart(rows)
  {
    forall i, j | 0 <= i < |rows| && 0 <= j < |rows| && i != j
      ensures Apart(rows[i], rows[j])
    {
      var a, b := rows[i], rows[j];
      if Live(a) && Live(b) && a.gpuId.Some? && a.gpuId == b.gpuId && a.startAt < b.endAt && b.startAt < a.endAt {
        var t := if a.startAt < b.startAt then b.startAt else a.startAt;
        var at := At(a.gpuId.value, t);
        assert SafeAt(rows, cards, a.gpuId.value, t);
        TwoPicked(rows, at, i, j);
        ExclusiveBound(rows, at);
      }
    }
  }

  lemma {:induction false} OnePicked(rows: seq<Row>, sel: Selector, i: nat)
    requires i < |rows| && Picks(sel, rows[i])
    ensures Total(rows, sel, Count) >= 1
  {
    if i < |rows| - 1 {
      OnePicked(rows[..|rows| - 1], sel, i);
    }
  }

  lemma {:induction false} TwoPicked(rows: seq<Row>, sel: Selector, i: nat, j: nat)
    requires i < |rows| && j < |rows| && i != j && Picks(sel, rows[i]) && Picks(sel, rows[j])
    ensures Total(rows, sel, Count) >= 2
  {
    var n := |rows| - 1;
    if i == n {
      OnePicked(rows[..n], sel, j);
    } else if j == n {
      OnePicked(rows[..n], sel, i);
    } else {
      TwoPicked(rows[..n], sel, i, j);
    }
  }

  /** The two conflicts that mean an exclusive row would share an instant. */
  predicate ClashesExclusively(c: Option<Conflict>) {
    c.Some? && (c.value.ExclusiveConflict? || c.value.MixExclusiveShared?)
  }

  /** The matrix reports an exclusive clash exactly when the row would not stay apart. */
  lemma ExclusiveClashIsExact(rows: seq<Row>, r: Row, cards: map<nat, Option<nat>>)
    requires Live(r) && r.gpuId.Some?
    ensures ClashesExclusively(Verdict(ItemOf(r), rows, cards)) <==>
            exists i :: 0 <= i < |rows| && !Apart(rows[i], r)
  {
    var w := Within(r.gpuId.value, r.startAt, r.endAt);
    WindowTotals(rows, w);
    ExclusiveBound(rows, w);
    assert forall i :: 0 <= i < |rows| ==> (Picks(w, rows[i]) <==>
        Live(rows[i]) && rows[i].gpuId == r.gpuId && rows[i].startAt < r.endAt && r.startAt < rows[i].endAt);
    if r.memoryMb.None? {
      if Total(rows, w, Count) > 0 {
        var i := SomePicked(rows, w);
        assert !Apart(rows[i], r);
      } else {
        NonePicked(rows, w);
      }
    } else if Total(rows, w, Exclusive) > 0 {
      var i :| 0 <= i < |rows| && Picks(w, rows[i]) && rows[i].memoryMb.None?;
      assert !Apart(rows[i], r);
    }
  }

  lemma {:induction false} SomePicked(rows: seq<Row>, sel: Selector) returns (i: nat)
    requires Total(rows, sel, Count) > 0
    ensures i < |rows| && Picks(sel, rows[i])
  {
    var n := |rows| - 1;
    if Picks(sel, rows[n]) {
      i := n;
    } else {
      i := SomePicked(rows[..n], sel);
    }
  }

  // ------------------------------------------------------------------- memory, lone rows included

  /** On every card whose size is known the live rows covering an instant fit, a lone one too. */
  ghost predicate FitsMemory(rows: seq<Row>, cards: map<nat, Option<nat>>) {
    forall gpu: nat, t: int :: CardMb(cards, gpu) != 0 ==> Total(rows, At(gpu, t), Memory) <= CardMb(cards, gpu)
  }

  /** The live row asks for more than its whole card. */
  predicate Oversized(r: Row, cards: map<nat, Option<nat>>) {
    Live(r) && r.gpuId.Some? && CardMb(cards, r.gpuId.value) != 0 && r.memoryMb.GetOr(0) > CardMb(cards, r.gpuId.value)
  }

  lemma {:induction false} PickedWithinTotal(rows: seq<Row>, sel: Selector, i: nat, m: Measure)
    requires i < |rows| && Picks(sel, rows[i])
    ensures Weight(m, rows[i]) <= Total(rows, sel, m)
  {
    if i < |rows| - 1 {
      PickedWithinTotal(rows[..|rows| - 1], sel, i, m);
    }
  }

  lemma {:induction false} NonePickedWeighsNothing(rows: seq<Row>, sel: Selector, m: Measure)
    requires Total(rows, sel, Count) == 0
    ensures Total(rows, sel, m) == 0
  {
    if rows != [] {
      NonePickedWeighsNothing(rows[..|rows| - 1], sel, m);
    }
  }

  lemma {:induction false} LonePicked(rows: seq<Row>, sel: Selector, m: Measure) returns (j: nat)
    requires Total(rows, sel, Count) == 1
    ensures j < |rows| && Picks(sel, rows[j]) && Total(rows, sel, m) == Weight(m, rows[j])
  {
    var n := |rows| - 1;
    if Picks(sel, rows[n]) {
      j := n;
      NonePickedWeighsNothing(rows[..n], sel, m);
    } else {
      j := LonePicked(rows[..n], sel, m);
    }
  }

  /** In a safe table memory fits everywhere, lone rows included, exactly when no single row exceeds its card. */
  lemma MemoryFitsExactly(rows: seq<Row>, cards: map<nat, Option<nat>>)
    requires CapacitySafe(rows, cards)
    requires forall i :: 0 <= i < |rows| ==> rows[i].startAt < rows[i].endAt
    ensures FitsMemory(rows, cards) <==> forall i :: 0 <= i < |rows| ==> !Oversized(rows[i], cards)
  {
    if FitsMemory(rows, cards) {
      forall i | 0 <= i < |rows|
        ensures !Oversized(rows[i], cards)
      {
        if Oversized(rows[i], cards) {
          PickedWithinTotal(rows, At(rows[i].gpuId.value, rows[i].startAt), i, Memory);
        }
      }
    }
    if forall i :: 0 <= i < |rows| ==> !Oversized(rows[i], cards) {
      forall gpu: nat, t: int | CardMb(cards, gpu) != 0
        ensures Total(rows, At(gpu, t), Memory) <= CardMb(cards, gpu)
      {
        assert SafeAt(rows, cards, gpu, t);
        if Total(rows, At(gpu, t), Count) == 0 {
          NonePickedWeighsNothing(rows, At(gpu, t), Memory);
        } else if Total(rows, At(gpu, t), Count) == 1 {
          var j := LonePicked(rows, At(gpu, t), Memory);
          assert !Oversized(rows[j], cards);
        }
      }
    }
  }

  /**
   The matrix looks at memory only when it finds other rows: an admitted row breaks the memory bound exactly when
   its window is empty and it asks for more than the whole card.
   */
  lemma AdmittedBreaksMemoryExactly(before: seq<Row>, r: Row, cards: map<nat, Option<nat>>)
    requires FitsMemory(before, cards) && Live(r) && r.startAt < r.endAt
    requires r.gpuId.Some? && Verdict(ItemOf(r), before, cards).None?
    ensures !FitsMemory(before + [r], cards) <==>
            Select(before, Within(r.gpuId.value, r.startAt, r.endAt)) == [] && Oversized(r, cards)
  {
    var w := Within(r.gpuId.value, r.startAt, r.endAt);
    AppendStacks(before, r);
    if Select(before, w) == [] && Oversized(r, cards) {
      PickedWithinTotal(before + [r], At(r.gpuId.value, r.startAt), |before|, Memory);
    } else {
      forall gpu: nat, t: int | CardMb(cards, gpu) != 0
        ensures Total(before + [r], At(gpu, t), Memory) <= CardMb(cards, gpu)
      {
        assert Total(before + [r], At(gpu, t), Memory) == Total(before, At(gpu, t), Memory) + Load(r, At(gpu, t), Memory);
        assert Total(before, At(gpu, t), Memory) <= CardMb(cards, gpu);
        if Picks(At(gpu, t), r) {
          AdmittedMemory(before, r, cards, t);
        }
      }
    }
  }

  lemma AdmittedMemory(before: seq<Row>, r: Row, cards: map<nat, Option<nat>>, t: int)
    requires Live(r) && r.startAt <= t < r.endAt && r.gpuId.Some? && CardMb(cards, r.gpuId.value) != 0
    requires Verdict(ItemOf(r), before, cards).None?
    requires Total(before, At(r.gpuId.value, t), Memory) <= CardMb(cards, r.gpuId.value)
    requires Select(before, Within(r.gpuId.value, r.startAt, r.endAt)) != [] || !Oversized(r, cards)
    ensures Total(before, At(r.gpuId.value, t), Memory) + r.memoryMb.GetOr(0) <= CardMb(cards, r.gpuId.value)
  {
    hide Total, Select, ExclusiveRows, SharedRows, UsedMb, UsedPct, DeclaredRows, Ids;
    var w := Within(r.gpuId.value, r.startAt, r.endAt);
    WindowTotals(before, w);
    WindowDominatesInstant(before, r.gpuId.value, r.startAt, r.endAt, t, Memory);
    if Select(before, w) == [] {
      NonePickedWeighsNothing(before, w, Memory);
    }
  }
}
