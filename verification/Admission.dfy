/**
 What admission promises: preview and create judge alike, an admitted batch or a
 successful edit keeps every card's stack within the card, and exactly where it does not.
 */
module Admission {
  import opened Prelude
  import opened Reservations
  import opened Conflicts
  import opened ReservationService

  // --------------------------------------------------------------- preview against create

  /** The checks create makes and preview does not: script, links, rows without a card. */
  ghost predicate Admissible(req: CreateRequest, world: World) {
    && req.items != []
    && !TooLarge(req.script)
    && forall k: nat :: k < |req.items| ==>
         CardlessError(req, k).None? && LinkError(req, world, k).None? && ScriptTimeError(req, k).None?
  }

  lemma {:induction false} FindingsByItem(items: seq<Item>, rows: seq<Row>, world: World, now: int)
    ensures forall f :: f in AllFindings(items, rows, world, now) <==>
                        f.index < |items| && f in Findings(f.index, items[f.index], rows, world, now)
  {
    if items != [] {
      var n := |items| - 1;
      FindingsByItem(items[..n], rows, world, now);
      var before, last := AllFindings(items[..n], rows, world, now), Findings(n, items[n], rows, world, now);
      assert AllFindings(items, rows, world, now) == before + last;
      assert forall f :: f in last ==> f.index == n;
    }
  }

  lemma FindsNothing(items: seq<Item>, rows: seq<Row>, world: World, now: int)
    ensures AllFindings(items, rows, world, now) == [] <==>
            forall k: nat :: k < |items| ==> Findings(k, items[k], rows, world, now) == []
  {
    var all := AllFindings(items, rows, world, now);
    FindingsByItem(items, rows, world, now);
    if all != [] {
      assert all[0] in all;
      assert all[0] in Findings(all[0].index, items[all[0].index], rows, world, now);
    }
    if k: nat :| k < |items| && Findings(k, items[k], rows, world, now) != [] {
      var found := Findings(k, items[k], rows, world, now);
      assert found[0] in found && found[0].index == k;
      assert found[0] in all;
    }
  }

  /** One loop that collects and two passes that fail fast agree on every store and batch. */
  lemma PreviewAgreesWithCreate(req: CreateRequest, rows: seq<Row>, world: World)
    ensures CreateAccepts(req, rows, world) <==>
            Admissible(req, world) && AllFindings(req.items, rows, world, req.now) == []
  {
    FindsNothing(req.items, rows, world, req.now);
    if CreateAccepts(req, rows, world) {
      assert FirstError(Cardless, req, rows, world, None);
      assert FirstError(Prepass, req, rows, world, None);
      assert FirstError(Clashes, req, rows, world, None);
      forall k: nat | k < |req.items|
        ensures CardlessError(req, k).None? && LinkError(req, world, k).None? && ScriptTimeError(req, k).None?
        ensures Findings(k, req.items[k], rows, world, req.now) == []
      {
        assert PassError(Cardless, req, rows, world, k).None?;
        assert PassError(Prepass, req, rows, world, k).None?;
        assert PassError(Clashes, req, rows, world, k).None?;
      }
    } else if Admissible(req, world) && AllFindings(req.items, rows, world, req.now) == [] {
      forall pass: Pass
        ensures FirstError(pass, req, rows, world, None)
      {
        forall k: nat | k < |req.items|
          ensures PassError(pass, req, rows, world, k).None?
        {
          assert Findings(k, req.items[k], rows, world, req.now) == [];
        }
      }
    }
  }

  /** Whatever create raises for an admissible batch, preview lists for the same item, with the same ids and sums. */
  lemma CreateErrorIsPreviewed(req: CreateRequest, rows: seq<Row>, world: World, e: CreateError)
    requires Admissible(req, world) && CreateRaises(req, rows, world, e)
    ensures e.BadItem? && Finding(e.index, e.problem) in AllFindings(req.items, rows, world, req.now)
  {
    FindingsByItem(req.items, rows, world, req.now);
    assert FirstError(Cardless, req, rows, world, None);
    if !FirstError(Prepass, req, rows, world, None) {
      var k: nat :| k < |req.items| && PassError(Prepass, req, rows, world, k) == Some(e);
      var found := Findings(k, req.items[k], rows, world, req.now);
      assert found[0] == Finding(k, e.problem);
    } else {
      var k: nat :| k < |req.items| && PassError(Clashes, req, rows, world, k) == Some(e);
      assert PassError(Prepass, req, rows, world, k).None?;
      var found := Findings(k, req.items[k], rows, world, req.now);
      assert found == [Finding(k, e.problem)];
    }
  }

  // -------------------------------------------------------------------- create and capacity

  predicate ItemsMeet(a: Item, b: Item) {
    a.gpuId.Some? && a.gpuId == b.gpuId && a.startAt < b.endAt && b.startAt < a.endAt
  }

  /** Items are only checked against stored rows, so the batch itself must keep them apart. */
  ghost predicate ItemsApart(items: seq<Item>) {
    forall i, j :: 0 <= i < j < |items| ==> !ItemsMeet(items[i], items[j])
  }

  lemma {:induction false} SelectSkips(rows: seq<Row>, more: seq<Row>, sel: Selector)
    requires forall i :: 0 <= i < |more| ==> !Picks(sel, more[i])
    ensures Select(rows + more, sel) == Select(rows, sel)
  {
    if more == [] {
      assert rows + more == rows;
    } else {
      var n := |more| - 1;
      SelectSkips(rows, more[..n], sel);
      assert (rows + more)[..|rows + more| - 1] == rows + more[..n];
    }
  }

  lemma AcceptedItem(req: CreateRequest, rows: seq<Row>, world: World, k: nat)
    requires CreateAccepts(req, rows, world) && k < |req.items|
    ensures TimeProblem(req.items[k], world, req.now).None?
    ensures CardProblem(req.items[k], rows, world.cards).None?
    ensures ScriptTimeError(req, k).None?
  {
    assert FirstError(Prepass, req, rows, world, None);
    assert FirstError(Clashes, req, rows, world, None);
    assert PassError(Prepass, req, rows, world, k).None?;
    assert PassError(Clashes, req, rows, world, k).None?;
  }

  /** Every inserted row meets the table's CHECK constraints, so the flush cannot fail on them. */
  lemma InsertedRowsPassChecks(req: CreateRequest, rows: seq<Row>, world: World)
    requires CreateAccepts(req, rows, world)
    ensures forall r :: r in NewRows(req) ==> DbChecks(r)
  {
    forall r | r in NewRows(req)
      ensures DbChecks(r)
    {
      var k :| 0 <= k < |req.items| && NewRows(req)[k] == r;
      AcceptedItem(req, rows, world, k);
    }
  }

  lemma {:induction false} CreatedPrefixIsSafe(req: CreateRequest, rows: seq<Row>, world: World, k: nat)
    requires CapacitySafe(rows, world.cards)
    requires CreateAccepts(req, rows, world) && ItemsApart(req.items) && k <= |req.items|
    ensures CapacitySafe(rows + NewRows(req)[..k], world.cards)
  {
    if k == 0 {
      assert rows + NewRows(req)[..0] == rows;
    } else {
      CreatedPrefixIsSafe(req, rows, world, k - 1);
      var before, r := rows + NewRows(req)[..k - 1], NewRow(req, k - 1);
      AcceptedItem(req, rows, world, k - 1);
      AppendStacks(before, r);
      assert before + [r] == rows + NewRows(req)[..k];
      if r.gpuId.Some? {
        var w := Within(r.gpuId.value, r.startAt, r.endAt);
        var earlier := NewRows(req)[..k - 1];
        forall i | 0 <= i < |earlier|
          ensures !Picks(w, earlier[i])
        {
          assert !ItemsMeet(req.items[i], req.items[k - 1]);
        }
        SelectSkips(rows, earlier, w);
        assert ItemOf(r) == req.items[k - 1];
      }
      AdmittedRowIsSafe(before, before + [r], r, world.cards);
    }
  }

  /** An accepted batch whose items keep apart keeps every instant of every card safe. */
  lemma CreateKeepsCapacity(s: Store, req: CreateRequest, world: World)
    requires CapacitySafe(s.rows, world.cards)
    requires CreateAccepts(req, s.rows, world) && ItemsApart(req.items)
    ensures CapacitySafe(Inserted(s, req).rows, world.cards)
  {
    CreatedPrefixIsSafe(req, s.rows, world, |req.items|);
    assert NewRows(req)[..|req.items|] == NewRows(req);
  }

  /** For any accepted batch: the cards stay safe exactly when the finitely many new peaks do. */
  lemma CreateCapacityExact(s: Store, req: CreateRequest, world: World)
    requires CapacitySafe(s.rows, world.cards) && CreateAccepts(req, s.rows, world)
    ensures CapacitySafe(Inserted(s, req).rows, world.cards) <==>
            forall i, k :: 0 <= i < |s.rows| + |req.items| && 0 <= k < |req.items| ==>
              PeakFits(Inserted(s, req).rows, i, req.items[k], world.cards)
  {
    var rows := Inserted(s, req).rows;
    SafeAtStarts(rows, world.cards);
    if forall i, k :: 0 <= i < |rows| && 0 <= k < |req.items| ==> PeakFits(rows, i, req.items[k], world.cards) {
      forall i | 0 <= i < |rows| && Live(rows[i]) && rows[i].gpuId.Some?
        ensures SafeAt(rows, world.cards, rows[i].gpuId.value, rows[i].startAt)
      {
        var at := At(rows[i].gpuId.value, rows[i].startAt);
        if k :| 0 <= k < |req.items| && Picks(at, NewRows(req)[k]) {
          assert PeakFits(rows, i, req.items[k], world.cards);
        } else {
          TotalSkips(s.rows, NewRows(req), at);
          assert SafeAt(s.rows, world.cards, at.gpu, at.instant);
        }
      }
    }
  }

  /** If row `i` starts inside the item's window on its card, the stack there fits. */
  predicate PeakFits(rows: seq<Row>, i: nat, item: Item, cards: map<nat, Option<nat>>)
    requires i < |rows|
  {
    Live(rows[i]) && rows[i].gpuId.Some? && rows[i].gpuId == item.gpuId && item.startAt <= rows[i].startAt < item.endAt
    ==> SafeAt(rows, cards, rows[i].gpuId.value, rows[i].startAt)
  }

  lemma {:induction false} TotalSkips(rows: seq<Row>, more: seq<Row>, sel: Selector)
    requires forall i :: 0 <= i < |more| ==> !Picks(sel, more[i])
    ensures forall m: Measure :: Total(rows + more, sel, m) == Total(rows, sel, m)
  {
    if more == [] {
      assert rows + more == rows;
    } else {
      var n := |more| - 1;
      TotalSkips(rows, more[..n], sel);
      assert (rows + more)[..|rows + more| - 1] == rows + more[..n];
    }
  }

  /** No two items of the batch meet on a card unless both are shared. */
  ghost predicate BatchExclusiveApart(items: seq<Item>) {
    forall i, j :: 0 <= i < j < |items| && ItemsMeet(items[i], items[j]) ==>
      items[i].memoryMb.Some? && items[j].memoryMb.Some?
  }

  /** Exclusive rows stay alone after an accepted batch exactly when the batch itself keeps them alone. */
  lemma CreateKeepsExclusiveApartExactly(s: Store, req: CreateRequest, world: World)
    requires ExclusiveApart(s.rows) && CreateAccepts(req, s.rows, world)
    ensures ExclusiveApart(Inserted(s, req).rows) <==> BatchExclusiveApart(req.items)
  {
    var n, rows := |s.rows|, Inserted(s, req).rows;
    if ExclusiveApart(rows) {
      forall i, j | 0 <= i < j < |req.items| && ItemsMeet(req.items[i], req.items[j])
        ensures req.items[i].memoryMb.Some? && req.items[j].memoryMb.Some?
      {
        assert Apart(rows[n + i], rows[n + j]);
      }
    }
    if BatchExclusiveApart(req.items) {
      forall i, j | 0 <= i < |rows| && 0 <= j < |rows| && i != j
        ensures Apart(rows[i], rows[j])
      {
        if i < n && j < n {
          assert Apart(s.rows[i], s.rows[j]);
        } else if i < n {
          StoredApartFromNew(s, req, world, i, j - n);
        } else if j < n {
          StoredApartFromNew(s, req, world, j, i - n);
        } else if i < j {
          assert ItemsMeet(req.items[i - n], req.items[j - n]) ==> rows[i].memoryMb.Some? && rows[j].memoryMb.Some?;
        } else {
          assert ItemsMeet(req.items[j - n], req.items[i - n]) ==> rows[i].memoryMb.Some? && rows[j].memoryMb.Some?;
        }
      }
    }
  }

  lemma StoredApartFromNew(s: Store, req: CreateRequest, world: World, i: nat, k: nat)
    requires CreateAccepts(req, s.rows, world) && i < |s.rows| && k < |req.items|
    ensures Apart(s.rows[i], NewRow(req, k))
  {
    var r := NewRow(req, k);
    AcceptedItem(req, s.rows, world, k);
    if r.gpuId.Some? {
      assert ItemOf(r) == req.items[k];
      ExclusiveClashIsExact(s.rows, r, world.cards);
    }
  }

  // -------------------------------------------------------------------- modify and capacity

  /** The window asked for is clear of the other rows, whatever else the edit was refused for. */
  predicate WindowClear(s: Store, id: nat, req: ModifyRequest, world: World) {
    id < |s.rows| && MovesTimes(req) && s.rows[id].gpuId.Some? ==>
      Verdict(ItemOf(Retimed(s.rows[id], req)), Without(s.rows, id), world.cards).None?
  }

  /** An edit keeps every card safe if it succeeds, is rolled back, or asked for a clear window. */
  lemma ModifyKeepsCapacity(s: Store, id: nat, req: ModifyRequest, world: World, policy: OnRefusal)
    requires CapacitySafe(s.rows, world.cards)
    requires policy == RollBack || Modify(s, id, req, world, policy).1.None? || WindowClear(s, id, req, world)
    ensures CapacitySafe(Modify(s, id, req, world, policy).0.rows, world.cards)
  {
    var (s', e) := Modify(s, id, req, world, policy);
    if s'.rows != s.rows {
      var (r, _) := ModifyRow(s.rows, id, req, world);
      if MovesTimes(req) {
        var rest := Without(s.rows, id);
        assert rest[id := r] == s'.rows;
        assert ItemOf(r) == ItemOf(Retimed(s.rows[id], req));
        ThinKeepsSafe(s.rows, rest, world.cards);
        OverwriteStacks(rest, id, r);
        AdmittedRowIsSafe(rest, s'.rows, r, world.cards);
      } else {
        ThinKeepsSafe(s.rows, s'.rows, world.cards);
      }
    }
  }

  /** The edit reaches the row, moves it onto a window an exclusive row forbids, and the constraints let it be stored. */
  predicate WritesOverClash(s: Store, id: nat, req: ModifyRequest, world: World) {
    && id < |s.rows|
    && ModifyGuard(s.rows[id], req).None?
    && MovesTimes(req)
    && s.rows[id].gpuId.Some?
    && DbChecks(ModifyRow(s.rows, id, req, world).0)
    && ClashesExclusively(Verdict(ItemOf(Retimed(s.rows[id], req)), Without(s.rows, id), world.cards))
  }

  /**
   The code writes the new times before it checks them, and the refusal commits the
   session. So an edit leaves exclusive rows alone exactly when it does not ask for a
   window that clashes exclusively.
   */
  lemma ModifyWithCommitExact(s: Store, id: nat, req: ModifyRequest, world: World)
    requires ExclusiveApart(s.rows)
    ensures ExclusiveApart(Modify(s, id, req, world, CommitDirty).0.rows) <==> !WritesOverClash(s, id, req, world)
  {
    var (s', e) := Modify(s, id, req, world, CommitDirty);
    if id < |s.rows| && ModifyGuard(s.rows[id], req).None? && DbChecks(ModifyRow(s.rows, id, req, world).0) {
      var (r, _) := ModifyRow(s.rows, id, req, world);
      assert s'.rows == s.rows[id := r];
      assert ItemOf(r) == ItemOf(Retimed(s.rows[id], req));
      ReplacedApart(s.rows, id, r);
      if r.gpuId.Some? && MovesTimes(req) {
        var rest := Without(s.rows, id);
        ExclusiveClashIsExact(rest, r, world.cards);
        assert forall i :: 0 <= i < |rest| && i != id ==> rest[i] == s.rows[i];
        assert Apart(rest[id], r);
      } else if MovesTimes(req) {
      } else {
        assert forall i :: 0 <= i < |s.rows| && i != id ==> Apart(s.rows[i], s.rows[id]) && (Apart(s.rows[i], s.rows[id]) <==> Apart(s.rows[i], r));
      }
    }
  }

  lemma ReplacedApart(rows: seq<Row>, id: nat, r: Row)
    requires ExclusiveApart(rows) && id < |rows|
    ensures ExclusiveApart(rows[id := r]) <==> forall i :: 0 <= i < |rows| && i != id ==> Apart(rows[i], r)
  {
    var after := rows[id := r];
    if ExclusiveApart(after) {
      forall i | 0 <= i < |rows| && i != id
        ensures Apart(rows[i], r)
      {
        assert Apart(after[i], after[id]);
      }
    }
    if forall i :: 0 <= i < |rows| && i != id ==> Apart(rows[i], r) {
      forall i, j | 0 <= i < |after| && 0 <= j < |after| && i != j
        ensures Apart(after[i], after[j])
      {
        if i == id {
          assert Apart(rows[j], r);
        } else if j == id {
          assert Apart(rows[i], r);
        } else {
          assert Apart(rows[i], rows[j]);
        }
      }
    }
  }

  /** After the edit, every peak inside the edited row's window fits its card. */
  predicate EditPeaksFit(after: seq<Row>, id: nat, cards: map<nat, Option<nat>>) {
    id < |after| ==> forall i :: 0 <= i < |after| ==> PeakFits(after, i, ItemOf(after[id]), cards)
  }

  /** Whatever becomes of an edit, refused and committed or not: the cards stay safe exactly when these peaks fit. */
  lemma ModifyCapacityExact(s: Store, id: nat, req: ModifyRequest, world: World, policy: OnRefusal)
    requires CapacitySafe(s.rows, world.cards)
    ensures var after := Modify(s, id, req, world, policy).0.rows;
      CapacitySafe(after, world.cards) <==> EditPeaksFit(after, id, world.cards)
  {
    var after := Modify(s, id, req, world, policy).0.rows;
    SafeAtStarts(after, world.cards);
    if id < |s.rows| {
      assert after == s.rows[id := after[id]] by { ModifyTouchesOne(s, id, req, world, policy); }
      if EditPeaksFit(after, id, world.cards) {
        forall i | 0 <= i < |after| && Live(after[i]) && after[i].gpuId.Some?
          ensures SafeAt(after, world.cards, after[i].gpuId.value, after[i].startAt)
        {
          assert PeakFits(after, i, ItemOf(after[id]), world.cards);
          if !Picks(At(after[i].gpuId.value, after[i].startAt), after[id]) {
            AwayFromEdit(s.rows, id, after[id], world.cards, after[i].gpuId.value, after[i].startAt);
          }
        }
      }
    } else {
      assert after == s.rows;
    }
  }

  lemma ModifyTouchesOne(s: Store, id: nat, req: ModifyRequest, world: World, policy: OnRefusal)
    requires id < |s.rows|
    ensures var after := Modify(s, id, req, world, policy).0.rows;
      |after| == |s.rows| && after == s.rows[id := after[id]]
  {
  }

  /** Where the new row is not, its going away can only help. */
  lemma AwayFromEdit(rows: seq<Row>, id: nat, r: Row, cards: map<nat, Option<nat>>, gpu: nat, t: int)
    requires id < |rows| && SafeAt(rows, cards, gpu, t) && !Picks(At(gpu, t), r)
    ensures SafeAt(rows[id := r], cards, gpu, t)
  {
    OverwriteTotal(rows, id, r, At(gpu, t), Count);
    OverwriteTotal(rows, id, r, At(gpu, t), Exclusive);
    OverwriteTotal(rows, id, r, At(gpu, t), Memory);
    OverwriteTotal(rows, id, r, At(gpu, t), Compute);
  }

  // ------------------------------------------------------------------------ counterexamples

  function ExclusiveRow(startAt: int, endAt: int): Row {
    Row(1, 1, Some(7), 1, 1, startAt, endAt, Scheduled, None, None, None, None, None, None, None)
  }

  /** A refused edit that is committed double-books the card. */
  lemma CommittedRefusalDoubleBooks()
    ensures
      var world := World(map[1 := Server(None)], map[7 := Some(1000)], map[]);
      var s := Store([ExclusiveRow(0, HOUR), ExclusiveRow(HOUR, 2 * HOUR)], [], []);
      var req := ModifyRequest(1, Some(0), None, None, None, None, 0);
      var (s', e) := Modify(s, 1, req, world, CommitDirty);
      && ExclusiveApart(s.rows)
      && e.Some? && e.value.BadTimes? && e.value.problem.Clash?
      && !ExclusiveApart(s'.rows)
  {
    var world := World(map[1 := Server(None)], map[7 := Some(1000)], map[]);
    var s := Store([ExclusiveRow(0, HOUR), ExclusiveRow(HOUR, 2 * HOUR)], [], []);
    var req := ModifyRequest(1, Some(0), None, None, None, None, 0);
    var item, rest := ItemOf(Retimed(s.rows[1], req)), Without(s.rows, 1);
    var w := Within(7, item.startAt, item.endAt);
    assert rest[..1] == [s.rows[0]];
    assert Select([s.rows[0]][..0], w) == [];
    assert Select(rest[..1], w) == [Entry(0, s.rows[0])];
    assert SharedRows([Entry(0, s.rows[0])]) == [] by {
      assert SharedRows([Entry(0, s.rows[0])][..0]) == [];
    }
    assert Select(rest, w) == [Entry(0, s.rows[0])];
    assert Verdict(item, rest, world.cards) == Some(ExclusiveConflict(Ids([Entry(0, s.rows[0])])));
    ModifyWithCommitExact(s, 1, req, world);
  }

  /** Two exclusive items for one card and hour are accepted together. */
  lemma BatchDoubleBooks()
    ensures
      var world := World(map[1 := Server(None)], map[7 := Some(1000)], map[1 := Link(1, true, false)]);
      var item := Item(1, Some(7), 0, HOUR, 1, None, None);
      var req := CreateRequest([item, item], 1, None, None, None, true, 1, 0);
      CreateAccepts(req, [], world) && !ExclusiveApart(Inserted(Store([], [], []), req).rows)
  {
    var world := World(map[1 := Server(None)], map[7 := Some(1000)], map[1 := Link(1, true, false)]);
    var item := Item(1, Some(7), 0, HOUR, 1, None, None);
    var req := CreateRequest([item, item], 1, None, None, None, true, 1, 0);
    assert forall pass: Pass, k: nat :: k < 2 ==> PassError(pass, req, [], world, k).None?;
    assert CreateAccepts(req, [], world);
    assert ItemsMeet(req.items[0], req.items[1]);
    CreateKeepsExclusiveApartExactly(Store([], [], []), req, world);
  }

  /** A lone shared row of 2000 MB is accepted for a card of 1000 MB. */
  lemma LoneSharedRowExceedsCard()
    ensures
      var world := World(map[1 := Server(None)], map[7 := Some(1000)], map[1 := Link(1, true, false)]);
      var item := Item(1, Some(7), 0, HOUR, 1, Some(2000), None);
      var req := CreateRequest([item], 1, None, None, None, true, 1, 0);
      var rows := Inserted(Store([], [], []), req).rows;
      && CreateAccepts(req, [], world)
      && Total(rows, At(7, 0), Memory) == 2000 > CardMb(world.cards, 7)
      && !FitsMemory(rows, world.cards)
  {
    var world := World(map[1 := Server(None)], map[7 := Some(1000)], map[1 := Link(1, true, false)]);
    var item := Item(1, Some(7), 0, HOUR, 1, Some(2000), None);
    var req := CreateRequest([item], 1, None, None, None, true, 1, 0);
    assert forall pass: Pass, k: nat :: k < 1 ==> PassError(pass, req, [], world, k).None?;
    var rows := Inserted(Store([], [], []), req).rows;
    assert rows == [NewRow(req, 0)] && rows[..0] == [];
    assert Total(rows, At(7, 0), Memory) == Total([], At(7, 0), Memory) + Load(rows[0], At(7, 0), Memory);
  }
}
