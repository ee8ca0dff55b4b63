/** The rules callers of the service live by: what it accepts, what it then stores, and who may change what. */
module ServiceRules {
  import opened Prelude
  import opened Reservations
  import opened Conflicts
  import opened ReservationService
  import opened Admission

  // -------------------------------------------------------------------- the conflict matrix

  /**
   The matrix admits an item exactly when its window is empty, or it and every row in the window are shared and the
   window's declared memory and compute leave room for it.
   */
  lemma MatrixAdmitsExactly(item: Item, rows: seq<Row>, cards: map<nat, Option<nat>>)
    requires item.gpuId.Some?
    ensures var window, mb := Within(item.gpuId.value, item.startAt, item.endAt), CardMb(cards, item.gpuId.value);
      Verdict(item, rows, cards).None?
      <==> Total(rows, window, Count) == 0
           || (&& item.memoryMb.Some? && Total(rows, window, Exclusive) == 0
               && (mb != 0 ==> Total(rows, window, Memory) + item.memoryMb.value <= mb)
               && (item.sharePct.Some? ==> Total(rows, window, Compute) + item.sharePct.value <= 100))
  {
    WindowTotals(rows, Within(item.gpuId.value, item.startAt, item.endAt));
  }

  /** What the matrix reports: the first rule broken, with the sums of the window. */
  lemma MatrixReportsExactly(item: Item, rows: seq<Row>, cards: map<nat, Option<nat>>)
    requires item.gpuId.Some? && Verdict(item, rows, cards).Some?
    ensures var window, mb, c := Within(item.gpuId.value, item.startAt, item.endAt), CardMb(cards, item.gpuId.value), Verdict(item, rows, cards).value;
      var (count, exclusive) := (Total(rows, window, Count), Total(rows, window, Exclusive));
      && (c.ExclusiveConflict? <==> item.memoryMb.None? && exclusive == count)
      && (c.MixExclusiveShared? <==> if item.memoryMb.None? then exclusive < count else exclusive > 0)
      && (c.MemoryExceeded? ==> c.usedMb == Total(rows, window, Memory) && Some(c.wouldUseMb) == item.memoryMb && c.totalMb == mb
                                && mb != 0 && c.usedMb + c.wouldUseMb > mb)
      && (c.ComputeExceeded? ==> c.usedPct == Total(rows, window, Compute) && item.sharePct.Some?
                                 && c.wouldUsePct == item.sharePct.value && c.usedPct + c.wouldUsePct > 100
                                 && (mb != 0 ==> item.memoryMb.Some? && Total(rows, window, Memory) + item.memoryMb.value <= mb))
  {
    var window := Within(item.gpuId.value, item.startAt, item.endAt);
    WindowTotals(rows, window);
    ExclusiveBound(rows, window);
  }

  datatype Kind = Any | Shared | Alone | Declared

  predicate OfKind(kind: Kind, r: Row) {
    match kind
    case Any => true
    case Shared => r.memoryMb.Some?
    case Alone => r.memoryMb.None?
    case Declared => r.sharePct.Some?
  }

  function Named(w: seq<Entry>, kind: Kind): seq<nat> {
    match kind
    case Any => Ids(w)
    case Shared => Ids(SharedRows(w))
    case Alone => Ids(ExclusiveRows(w))
    case Declared => Ids(DeclaredRows(w))
  }

  lemma IdsAppend(w: seq<Entry>, e: Entry)
    ensures Ids(w + [e]) == Ids(w) + [e.id]
  {
    assert (w + [e])[..|w|] == w;
  }

  lemma RowsPush(w: seq<Entry>, e: Entry)
    ensures SharedRows(w + [e]) == if e.row.memoryMb.Some? then SharedRows(w) + [e] else SharedRows(w)
    ensures ExclusiveRows(w + [e]) == if e.row.memoryMb.None? then ExclusiveRows(w) + [e] else ExclusiveRows(w)
    ensures DeclaredRows(w + [e]) == if e.row.sharePct.Some? then DeclaredRows(w) + [e] else DeclaredRows(w)
  {
    assert (w + [e])[..|w|] == w;
  }

  lemma NamedPush(w: seq<Entry>, e: Entry, kind: Kind, i: nat)
    ensures i in Named(w + [e], kind) <==> i in Named(w, kind) || (OfKind(kind, e.row) && i == e.id)
  {
    RowsPush(w, e);
    IdsAppend(w, e);
    IdsAppend(SharedRows(w), e);
    IdsAppend(ExclusiveRows(w), e);
    IdsAppend(DeclaredRows(w), e);
    hide SharedRows, ExclusiveRows, DeclaredRows, Ids;
  }

  lemma {:induction false} NamedExactly(rows: seq<Row>, sel: Selector, kind: Kind, i: nat)
    ensures i in Named(Select(rows, sel), kind) <==> i < |rows| && Picks(sel, rows[i]) && OfKind(kind, rows[i])
  {
    NothingNamed(sel, kind, i);
    hide Named, OfKind, Picks, Select;
    if rows != [] {
      var n := |rows| - 1;
      NamedExactly(rows[..n], sel, kind, i);
      SelectGrows(rows, sel);
      NamedPush(Select(rows[..n], sel), Entry(n, rows[n]), kind, i);
      assert i < n ==> rows[..n][i] == rows[i];
    } else {
      assert rows == [];
    }
  }

  lemma NothingNamed(sel: Selector, kind: Kind, i: nat)
    ensures i !in Named(Select([], sel), kind)
  {
  }

  /** A conflict names exactly the live rows of the window that stand in the way. */
  lemma ConflictNamesRows(item: Item, rows: seq<Row>, cards: map<nat, Option<nat>>, i: nat)
    requires item.gpuId.Some? && Verdict(item, rows, cards).Some?
    ensures var c := Verdict(item, rows, cards).value;
      i in c.ids <==>
        && i < |rows| && Live(rows[i]) && rows[i].gpuId == item.gpuId && rows[i].startAt < item.endAt && item.startAt < rows[i].endAt
        && (c.MixExclusiveShared? ==> rows[i].memoryMb.None? != item.memoryMb.None?)
        && (c.ComputeExceeded? ==> rows[i].sharePct.Some?)
  {
    var window := Within(item.gpuId.value, item.startAt, item.endAt);
    NamedExactly(rows, window, Any, i);
    NamedExactly(rows, window, Shared, i);
    NamedExactly(rows, window, Alone, i);
    NamedExactly(rows, window, Declared, i);
  }

  // --------------------------------------------------------------------------------- create

  /** The item's own rules, apart from other reservations. */
  predicate ItemRules(req: CreateRequest, world: World, k: nat)
    requires k < |req.items|
  {
    var item := req.items[k];
    && item.startAt < item.endAt && req.now - 5 * 60 * SECOND <= item.startAt
    && item.serverId in world.servers
    && (world.servers[item.serverId].maxHours.Some? ==>
          item.endAt <= item.startAt + world.servers[item.serverId].maxHours.value * HOUR)
    && item.linkId in world.links
    && world.links[item.linkId] == Link(req.userId, true, false)
    && (req.scriptAt.Some? ==> item.startAt <= req.scriptAt.value < item.endAt)
    && if item.gpuId.Some? then item.gpuId.value in world.cards
       else req.script.Some? && item.memoryMb.None? && item.sharePct.None?
  }

  lemma RulesAreTheChecks(req: CreateRequest, world: World, k: nat)
    requires k < |req.items|
    ensures ItemRules(req, world, k)
            <==> && CardlessError(req, k).None? && PrepassError(req, world, k).None?
                 && (req.items[k].gpuId.Some? ==> req.items[k].gpuId.value in world.cards)
  {
  }

  /** It holds items, its script fits, and every item keeps its rules and, where it names a card, passes the matrix. */
  ghost predicate BatchKeepsRules(req: CreateRequest, rows: seq<Row>, world: World) {
    && req.items != [] && (req.script.Some? ==> |req.script.value| <= 4096)
    && forall k: nat :: k < |req.items| ==>
         ItemRules(req, world, k) && (req.items[k].gpuId.Some? ==> Verdict(req.items[k], rows, world.cards).None?)
  }

  /**
   A batch is accepted exactly when it holds items and no script beyond 4096 bytes, every item keeps its own rules with
   a link of the user's own, active and verified, and the matrix admits each item that names a card.
   */
  lemma CreateAcceptsExactly(req: CreateRequest, rows: seq<Row>, world: World)
    ensures CreateAccepts(req, rows, world) <==> BatchKeepsRules(req, rows, world)
  {
    forall k: nat | k < |req.items|
      ensures (ItemRules(req, world, k) && (req.items[k].gpuId.Some? ==> Verdict(req.items[k], rows, world.cards).None?))
              <==> forall pass: Pass :: PassError(pass, req, rows, world, k).None?
    {
      hide ItemRules;
      RulesAreTheChecks(req, world, k);
      assert PassError(Cardless, req, rows, world, k) == CardlessError(req, k);
      assert PassError(Prepass, req, rows, world, k) == PrepassError(req, world, k);
      assert PassError(Clashes, req, rows, world, k) == ClashError(req, rows, world, k);
    }
    hide PassError, ItemRules, Verdict;
    if CreateAccepts(req, rows, world) {
      forall k: nat, pass: Pass | k < |req.items|
        ensures PassError(pass, req, rows, world, k).None?
      {
        assert FirstError(pass, req, rows, world, None);
      }
    }
  }

  predicate BadTimes(item: Item, world: World, now: int) {
    item.endAt <= item.startAt || item.startAt < now - 5 * 60 * SECOND || item.serverId !in world.servers
  }

  predicate TimesAreRight(item: Item, world: World, now: int) {
    && !BadTimes(item, world, now)
    && (world.servers[item.serverId].maxHours.Some? ==>
          item.endAt - item.startAt <= world.servers[item.serverId].maxHours.value * HOUR)
  }

  /** What is wrong with the item's times, its server, its length or its card. */
  predicate IsWrong(item: Item, problem: Problem, rows: seq<Row>, world: World, now: int) {
    match problem
    case InvalidTime => BadTimes(item, world, now) || (item.gpuId.Some? && item.gpuId.value !in world.cards)
    case TooLong =>
      && !BadTimes(item, world, now) && world.servers[item.serverId].maxHours.Some?
      && item.endAt - item.startAt > world.servers[item.serverId].maxHours.value * HOUR
    case Clash(c) => item.gpuId.Some? && item.gpuId.value in world.cards && Verdict(item, rows, world.cards) == Some(c)
  }

  /** The error says something true of the item it names, and that what is looked at before it was in order. */
  predicate IsTrue(e: CreateError, req: CreateRequest, rows: seq<Row>, world: World)
    requires e.NoItems? || e.ScriptTooLarge? || e.index < |req.items|
  {
    match e
    case NoItems => req.items == []
    case ScriptTooLarge => req.script.Some? && |req.script.value| > 4096
    case CardlessWithoutScript(k) => req.items[k].gpuId.None? && req.script.None?
    case CardlessWithShare(k) =>
      req.items[k].gpuId.None? && req.script.Some? && (req.items[k].memoryMb.Some? || req.items[k].sharePct.Some?)
    case NoActiveLink(k) =>
      var id := req.items[k].linkId;
      && TimesAreRight(req.items[k], world, req.now)
      && (id !in world.links || !world.links[id].active || world.links[id].userId != req.userId)
    case LinkNotVerified(k) =>
      && TimesAreRight(req.items[k], world, req.now)
      && req.items[k].linkId in world.links && world.links[req.items[k].linkId] == Link(req.userId, true, true)
    case ScriptTimeOutside(k) =>
      && TimesAreRight(req.items[k], world, req.now)
      && req.items[k].linkId in world.links && world.links[req.items[k].linkId] == Link(req.userId, true, false)
      && req.scriptAt.Some? && (req.scriptAt.value < req.items[k].startAt || req.items[k].endAt <= req.scriptAt.value)
    case BadItem(k, problem) => IsWrong(req.items[k], problem, rows, world, req.now)
  }

  lemma ItemFindings(k: nat, item: Item, rows: seq<Row>, world: World, now: int, problem: Problem)
    ensures Finding(k, problem) in Findings(k, item, rows, world, now)
            <==> IsWrong(item, problem, rows, world, now) && (problem.Clash? ==> !BadTimes(item, world, now))
  {
    hide Verdict;
    var found, card := Findings(k, item, rows, world, now), CardProblem(item, rows, world.cards);
    var long := TimeProblem(item, world, now) == Some(TooLong);
    if TimeProblem(item, world, now) == Some(InvalidTime) {
      assert found == [Finding(k, InvalidTime)];
    } else {
      assert found == (if long then [Finding(k, TooLong)] else []) + if card.Some? then [Finding(k, card.value)] else [];
    }
  }

  /**
   Preview lists of each item exactly what is wrong with it, a conflict beside too great a length, but nothing more of an
   item whose times make no sense.
   */
  lemma PreviewListsExactly(items: seq<Item>, rows: seq<Row>, world: World, now: int, f: Finding)
    ensures f in AllFindings(items, rows, world, now)
            <==> && f.index < |items| && IsWrong(items[f.index], f.problem, rows, world, now)
                 && (f.problem.Clash? ==> !BadTimes(items[f.index], world, now))
  {
    hide IsWrong, BadTimes, Findings;
    FindingsByItem(items, rows, world, now);
    if f.index < |items| {
      ItemFindings(f.index, items[f.index], rows, world, now, f.problem);
    }
  }

  lemma PassErrorIsTrue(pass: Pass, req: CreateRequest, rows: seq<Row>, world: World, k: nat)
    requires k < |req.items| && PassError(pass, req, rows, world, k).Some?
    ensures var e := PassError(pass, req, rows, world, k).value;
      !e.NoItems? && !e.ScriptTooLarge? && e.index == k && IsTrue(e, req, rows, world)
  {
    hide Verdict;
  }

  /** The error create raises is true of the request, and of the item it names. */
  lemma CreateErrorsAreTrue(req: CreateRequest, rows: seq<Row>, world: World, e: CreateError)
    requires CreateRaises(req, rows, world, e)
    ensures !CreateAccepts(req, rows, world)
    ensures e.NoItems? <==> req.items == []
    ensures e.ScriptTooLarge? <==> req.items != [] && req.script.Some? && |req.script.value| > 4096
    ensures (e.NoItems? || e.ScriptTooLarge? || e.index < |req.items|) && IsTrue(e, req, rows, world)
  {
    hide PassError;
    if req.items != [] && !TooLarge(req.script) {
      hide IsTrue;
      var pass := if !FirstError(Cardless, req, rows, world, None) then Cardless
                  else if !FirstError(Prepass, req, rows, world, None) then Prepass else Clashes;
      assert FirstError(pass, req, rows, world, Some(e));
      var k: nat :| k < |req.items| && PassError(pass, req, rows, world, k) == Some(e);
      PassErrorIsTrue(pass, req, rows, world, k);
      assert !FirstError(pass, req, rows, world, None);
    }
  }

  /**
   An accepted batch is stored as asked: one scheduled row per item, of the user and the group, with the item read back
   unchanged; the script on the first row or on all, to be run from the time asked for or the row's start.
   */
  lemma BatchIsStored(s: Store, req: CreateRequest, k: nat)
    requires k < |req.items|
    ensures var t, item := Inserted(s, req), req.items[k];
      && |t.rows| == |s.rows| + |req.items| && t.rows[..|s.rows|] == s.rows && t.sent == s.sent
      && |t.audit| == |s.audit| + |req.items| && t.audit[..|s.audit|] == s.audit
      && t.audit[|s.audit| + k] == Created(|s.rows| + k, req.groupId)
      && var r := t.rows[|s.rows| + k];
      && ItemOf(r) == item && r.userId == req.userId && r.groupId == req.groupId
      && r.status == Scheduled && r.scriptStatus.None? && r.dispatchStartedAt.None?
      && (r.script.Some? ==> r.script == req.script)
      && (r.script.Some? <==> req.script.Some? && (k == 0 || req.shareScript))
      && (r.scriptAt.Some? <==> r.script.Some? && r.script.value != "")
      && (r.scriptAt.Some? ==> r.scriptAt.value == if req.scriptAt.Some? then req.scriptAt.value else item.startAt)
      && r.maxRuntime == if r.scriptAt.Some? then req.maxRuntime else None
  {
    assert Inserted(s, req).rows[|s.rows| + k] == NewRow(req, k);
  }

  // ---------------------------------------------------------------------------------- edit

  /** What an edit that succeeds leaves: the columns asked for written, all others as they were. */
  predicate EditedAs(r: Row, e: Row, req: ModifyRequest) {
    && e.startAt == (if req.startAt.Some? then req.startAt.value else r.startAt)
    && e.endAt == (if req.endAt.Some? then req.endAt.value else r.endAt)
    && e.script == (if req.script.Some? then req.script else r.script)
    && e.scriptAt == (if req.scriptAt.Some? then req.scriptAt
                      else if req.script.Some? && r.scriptAt.None? then Some(e.startAt) else r.scriptAt)
    && e.maxRuntime == (if req.maxRuntime.Some? then req.maxRuntime else r.maxRuntime)
    && e == r.(startAt := e.startAt, endAt := e.endAt, script := e.script, scriptAt := e.scriptAt, maxRuntime := e.maxRuntime)
  }

  /** The edited times keep the rules of a new reservation, with the row itself out of the way. */
  predicate TimesKeepRules(rows: seq<Row>, id: nat, e: Row, req: ModifyRequest, world: World)
    requires id < |rows|
  {
    && e.startAt < e.endAt && req.now - 5 * 60 * SECOND <= e.startAt && e.serverId in world.servers
    && (world.servers[e.serverId].maxHours.Some? ==> e.endAt <= e.startAt + world.servers[e.serverId].maxHours.value * HOUR)
    && (e.gpuId.Some? ==> e.gpuId.value in world.cards && Verdict(ItemOf(e), Without(rows, id), world.cards).None?)
  }

  /** The owner asks for it while the row is scheduled, and the script's timing is not frozen by a dispatch. */
  predicate MayEdit(r: Row, req: ModifyRequest) {
    && r.status == Scheduled && r.userId == req.actorId
    && (req.scriptAt.Some? || req.maxRuntime.Some? ==> r.scriptStatus.None? && r.dispatchStartedAt.None?)
  }

  /** What is asked for keeps the rules: moved times, the script's size, and the trigger time asked for. */
  predicate EditKeepsRules(rows: seq<Row>, id: nat, e: Row, req: ModifyRequest, world: World)
    requires id < |rows|
  {
    && (req.startAt.Some? || req.endAt.Some? ==> TimesKeepRules(rows, id, e, req, world))
    && (req.script.Some? ==> |req.script.value| <= 4096)
    && (req.scriptAt.Some? ==> e.startAt <= req.scriptAt.value < e.endAt)
  }

  /**
   An edit succeeds exactly when the row's owner makes it while it is scheduled, moved times keep the rules of a new
   reservation, the script fits, and the trigger time stays inside the window. The row is then as asked, and only it
   and one audit row change; a refused edit that is rolled back changes nothing.
   */
  lemma EditSucceedsExactly(s: Store, id: nat, req: ModifyRequest, world: World, policy: OnRefusal)
    ensures var (t, err) := Modify(s, id, req, world, policy);
      && (err.None? <==>
            && id < |s.rows| && MayEdit(s.rows[id], req)
            && exists e: Row :: EditedAs(s.rows[id], e, req) && DbChecks(e) && EditKeepsRules(s.rows, id, e, req, world))
      && (err.None? ==> exists e: Row :: EditedAs(s.rows[id], e, req) && t == Store(s.rows[id := e], s.audit + [Modified(id)], s.sent))
      && (err.Some? && policy == RollBack ==> t == s)
  {
    hide Verdict;
    if id < |s.rows| {
      var (e, err) := ModifyRow(s.rows, id, req, world);
      EditDecided(s.rows, id, req, world);
      hide ModifyRow, EditKeepsRules;
    }
  }

  /** The error an edit raises is true of the row and the request. */
  lemma EditErrorsAreTrue(s: Store, id: nat, req: ModifyRequest, world: World, policy: OnRefusal)
    requires Modify(s, id, req, world, policy).1.Some?
    ensures var e := Modify(s, id, req, world, policy).1.value;
      && (e.NoSuchRow? <==> id >= |s.rows|)
      && (e.NotScheduled? <==> id < |s.rows| && s.rows[id].status != Scheduled)
      && (e.NotOwner? <==> id < |s.rows| && s.rows[id].status == Scheduled && s.rows[id].userId != req.actorId)
      && (id < |s.rows| ==>
            var moved := Retimed(s.rows[id], req);
            var timesKept := req.startAt.Some? || req.endAt.Some? ==> TimesKeepRules(s.rows, id, moved, req, world);
            match e
            case TimingFrozen => s.rows[id].status == Scheduled && s.rows[id].userId == req.actorId && !MayEdit(s.rows[id], req)
            case BadTimes(problem) =>
              && MayEdit(s.rows[id], req) && (req.startAt.Some? || req.endAt.Some?)
              && IsWrong(ItemOf(moved), problem, Without(s.rows, id), world, req.now)
            case ModifiedScriptTooLarge => MayEdit(s.rows[id], req) && timesKept && req.script.Some? && |req.script.value| > 4096
            case ModifiedScriptTimeOutside =>
              && MayEdit(s.rows[id], req) && timesKept && (req.script.Some? ==> |req.script.value| <= 4096)
              && req.scriptAt.Some? && !(moved.startAt <= req.scriptAt.value < moved.endAt)
            case _ => true)
  {
    hide Verdict, DbChecks;
  }

  lemma EditDecided(rows: seq<Row>, id: nat, req: ModifyRequest, world: World)
    requires id < |rows|
    ensures var (e, err) := ModifyRow(rows, id, req, world);
      && (err.None? ==> MayEdit(rows[id], req) && EditedAs(rows[id], e, req) && EditKeepsRules(rows, id, e, req, world))
      && (forall f: Row :: MayEdit(rows[id], req) && EditedAs(rows[id], f, req) && EditKeepsRules(rows, id, f, req, world) ==>
            err.None? && f == e)
  {
    hide Verdict;
    assert forall f: Row :: EditedAs(rows[id], f, req) ==> ItemOf(f) == ItemOf(Retimed(rows[id], req));
  }

  // -------------------------------------------------------------------------------- cancels

  /** A cancel succeeds exactly for a live row, by its owner or an admin, and changes that row's status and the log alone. */
  lemma CancelSucceedsExactly(s: Store, id: nat, actorId: nat, canAdmin: bool)
    ensures var (t, err) := CancelRow(s, id, actorId, canAdmin);
      if id < |s.rows| && Live(s.rows[id]) && (canAdmin || s.rows[id].userId == actorId)
      then err.None? && t == Store(s.rows[id := s.rows[id].(status := Cancelled)], s.audit + [Cancel(id)], s.sent)
      else err.Some? && t == s
  {
  }

  lemma {:induction false} RunningIdsExactly(rows: seq<Row>, groupId: nat)
    ensures forall i: nat :: i in RunningIds(rows, groupId)
              <==> i < |rows| && rows[i].groupId == groupId && rows[i].status == Active && rows[i].scriptStatus == Some(ScriptRunning)
  {
    if rows != [] {
      var n := |rows| - 1;
      RunningIdsExactly(rows[..n], groupId);
      var last := rows[n].groupId == groupId && rows[n].status == Active && rows[n].scriptStatus == Some(ScriptRunning);
      assert RunningIds(rows, groupId) == RunningIds(rows[..n], groupId) + if last then [n] else [];
    }
  }

  lemma {:induction false} GroupIdsIncrease(rows: seq<Row>, groupId: nat)
    ensures forall i, j :: 0 <= i < j < |GroupIds(rows, groupId)| ==> GroupIds(rows, groupId)[i] < GroupIds(rows, groupId)[j]
  {
    if rows != [] {
      var n := |rows| - 1;
      GroupIdsIncrease(rows[..n], groupId);
      GroupIdsInRange(rows[..n], groupId);
      assert GroupIds(rows, groupId) == GroupIds(rows[..n], groupId) + (if InGroup(rows[n], groupId) then [n] else []);
    }
  }

  /** The group's first live row. */
  predicate Leads(rows: seq<Row>, groupId: nat, i: nat) {
    && i < |rows| && rows[i].groupId == groupId && Live(rows[i])
    && forall j :: 0 <= j < i ==> !(rows[j].groupId == groupId && Live(rows[j]))
  }

  /** Row i after the whole group was cancelled. */
  predicate CancelledWith(a: Row, b: Row, groupId: nat) {
    b == if a.groupId == groupId && Live(a) then a.(status := Cancelled) else a
  }

  /**
   A group is cancelled exactly when some row of it is live, the first such row is the actor's or the actor is an admin,
   and no script of it runs; then all its live rows are cancelled and no other row changes. Otherwise nothing changes.
   */
  lemma GroupCancelExactly(s: Store, groupId: nat, actorId: nat, canAdmin: bool)
    ensures var (t, err) := CancelRows(s, groupId, actorId, canAdmin);
      && (err.None? <==>
            && (exists i: nat :: Leads(s.rows, groupId, i) && (canAdmin || s.rows[i].userId == actorId))
            && !exists i :: 0 <= i < |s.rows| && s.rows[i].groupId == groupId && s.rows[i].status == Active
                            && s.rows[i].scriptStatus == Some(ScriptRunning))
      && if err.None? then
           && |t.rows| == |s.rows| && (forall i :: 0 <= i < |s.rows| ==> CancelledWith(s.rows[i], t.rows[i], groupId))
           && t.sent == s.sent && t.audit == s.audit + [CancelGroup(groupId, |set i | 0 <= i < |s.rows| && InGroup(s.rows[i], groupId)|)]
         else t == s
  {
    hide GroupIds, RunningIds, Leads, InGroup, CancelRows;
    GroupGuard(s, groupId, actorId, canAdmin);
    GroupEffect(s, groupId, actorId, canAdmin);
  }

  lemma GroupGuard(s: Store, groupId: nat, actorId: nat, canAdmin: bool)
    ensures CancelRows(s, groupId, actorId, canAdmin).1.None? <==>
      && (exists i: nat :: Leads(s.rows, groupId, i) && (canAdmin || s.rows[i].userId == actorId))
      && !exists i :: 0 <= i < |s.rows| && s.rows[i].groupId == groupId && s.rows[i].status == Active
                      && s.rows[i].scriptStatus == Some(ScriptRunning)
  {
    RunningOnes(s.rows, groupId);
    LeaderIsFirst(s.rows, groupId);
    GroupIdsInRange(s.rows, groupId);
    hide GroupIds, RunningIds, CancelledGroup, Leads, InGroup;
    var ids := GroupIds(s.rows, groupId);
    assert ids != [] ==> Leads(s.rows, groupId, ids[0]);
  }

  lemma RunningOnes(rows: seq<Row>, groupId: nat)
    ensures RunningIds(rows, groupId) != [] <==>
      exists i :: 0 <= i < |rows| && rows[i].groupId == groupId && rows[i].status == Active && rows[i].scriptStatus == Some(ScriptRunning)
  {
    var running := RunningIds(rows, groupId);
    RunningIdsExactly(rows, groupId);
    hide RunningIds;
    if running != [] {
      assert running[0] in running;
    }
    forall i: nat | i < |rows| && rows[i].groupId == groupId && rows[i].status == Active && rows[i].scriptStatus == Some(ScriptRunning)
      ensures running != []
    {
      assert i in running;
    }
  }

  lemma GroupEffect(s: Store, groupId: nat, actorId: nat, canAdmin: bool)
    ensures var (t, err) := CancelRows(s, groupId, actorId, canAdmin);
      if err.None? then
        && |t.rows| == |s.rows| && (forall i :: 0 <= i < |s.rows| ==> CancelledWith(s.rows[i], t.rows[i], groupId))
        && t.sent == s.sent && t.audit == s.audit + [CancelGroup(groupId, |set i | 0 <= i < |s.rows| && InGroup(s.rows[i], groupId)|)]
      else t == s
  {
    GroupIdsInRange(s.rows, groupId);
    GroupIdsIncrease(s.rows, groupId);
    CountedIds(GroupIds(s.rows, groupId), set i | 0 <= i < |s.rows| && InGroup(s.rows[i], groupId));
    hide GroupIds, RunningIds;
  }

  /** The first of the listed ids is the group's leader, and there is none where nothing is listed. */
  lemma LeaderIsFirst(rows: seq<Row>, groupId: nat)
    ensures var ids := GroupIds(rows, groupId);
      forall i: nat :: Leads(rows, groupId, i) <==> ids != [] && i == ids[0]
  {
    var ids := GroupIds(rows, groupId);
    GroupIdsInRange(rows, groupId);
    GroupIdsIncrease(rows, groupId);
    hide GroupIds;
    if ids != [] {
      assert ids[0] in ids;
      forall j: nat | j < ids[0]
        ensures !InGroup(rows[j], groupId)
      {
        assert j !in ids;
      }
    }
    forall i: nat | Leads(rows, groupId, i)
      ensures ids != [] && i == ids[0]
    {
      assert i in ids;
    }
  }

  lemma {:induction false} CountedIds(ids: seq<nat>, all: set<int>)
    requires forall i, j :: 0 <= i < j < |ids| ==> ids[i] < ids[j]
    requires forall i: int :: i in all <==> i >= 0 && i as nat in ids
    ensures |all| == |ids|
  {
    if ids == [] {
      assert forall i :: i !in all;
    } else {
      var last := ids[|ids| - 1];
      assert forall i: nat :: i in ids <==> i in ids[..|ids| - 1] || i == last;
      CountedIds(ids[..|ids| - 1], all - {last});
      assert |all| == |all - {last}| + 1;
    }
  }
}
