/** The reservation service as it runs: one database session whose rows the calls update in place. */
module Sessions {
  import opened Prelude
  import opened Reservations
  import opened Conflicts
  import opened ReservationService

  class Session {
    var rows: seq<Row>
    var audit: seq<Audit>
    var sent: seq<Execute>

    function Snapshot(): Store
      reads this
    {
      Store(rows, audit, sent)
    }

    constructor (s: Store)
      ensures Snapshot() == s
    {
      rows, audit, sent := s.rows, s.audit, s.sent;
    }

    /** `create_reservation_batch`: three fail-fast loops, then the inserts, then their audit rows. */
    method CreateReservationBatch(req: CreateRequest, world: World) returns (err: Option<CreateError>)
      modifies this
      ensures err.Some? ==> CreateRaises(req, old(rows), world, err.value) && Snapshot() == old(Snapshot())
      ensures err.None? ==> CreateAccepts(req, old(rows), world) && Snapshot() == Inserted(old(Snapshot()), req)
    {
      if req.items == [] {
        return Some(NoItems);
      }
      if TooLarge(req.script) {
        return Some(ScriptTooLarge);
      }
      for k := 0 to |req.items|
        invariant forall j: nat :: j < k ==> PassError(Cardless, req, rows, world, j).None?
        invariant Snapshot() == old(Snapshot())
      {
        err := CardlessError(req, k);
        if err.Some? {
          assert PassError(Cardless, req, rows, world, k) == err;
          return;
        }
      }
      for k := 0 to |req.items|
        invariant forall j: nat :: j < k ==> PassError(Prepass, req, rows, world, j).None?
        invariant Snapshot() == old(Snapshot())
      {
        err := ValidateItem(req, world, k);
        if err.Some? {
          assert PassError(Prepass, req, rows, world, k) == err;
          return;
        }
      }
      for k := 0 to |req.items|
        invariant forall j: nat :: j < k ==> PassError(Clashes, req, rows, world, j).None?
        invariant Snapshot() == old(Snapshot())
      {
        var problem := CardProblem(req.items[k], rows, world.cards);
        if problem.Some? {
          err := Some(BadItem(k, problem.value));
          assert PassError(Clashes, req, rows, world, k) == err;
          return;
        }
      }
      err := None;
      assert forall pass: Pass :: FirstError(pass, req, rows, world, None);
      InsertRows(req);
    }

    /** One turn of the validating loop: times, then the link, then the script's trigger time. */
    method ValidateItem(req: CreateRequest, world: World, k: nat) returns (err: Option<CreateError>)
      requires k < |req.items|
      ensures err == PrepassError(req, world, k)
    {
      var problem := TimeProblem(req.items[k], world, req.now);
      if problem.Some? {
        return Some(BadItem(k, problem.value));
      }
      err := LinkError(req, world, k);
      if err.None? {
        err := ScriptTimeError(req, k);
      }
    }

    method InsertRows(req: CreateRequest)
      modifies this
      ensures Snapshot() == Inserted(old(Snapshot()), req)
    {
      var created: seq<Row> := [];
      for k := 0 to |req.items|
        invariant created == NewRows(req)[..k]
        invariant Snapshot() == old(Snapshot())
      {
        created := created + [NewRow(req, k)];
      }
      var first := |rows|;
      rows := rows + created;
      for k := 0 to |created|
        invariant rows == old(rows) + NewRows(req) && sent == old(sent)
        invariant audit == old(audit) + CreatedAudits(first, k, req.groupId)
      {
        audit := audit + [Created(first + k, req.groupId)];
        assert CreatedAudits(first, k + 1, req.groupId) == CreatedAudits(first, k, req.groupId) + [Created(first + k, req.groupId)];
      }
    }

    /** `preview_conflicts`: one loop that collects. */
    method PreviewConflicts(items: seq<Item>, world: World, now: int) returns (found: seq<Finding>)
      ensures found == AllFindings(items, rows, world, now)
    {
      found := [];
      for k := 0 to |items|
        invariant found == AllFindings(items[..k], rows, world, now)
      {
        hide Findings;
        var more := PreviewItem(k, items[k], world, now);
        found := found + more;
        assert items[..k + 1][..k] == items[..k];
      }
      assert items[..|items|] == items;
    }

    /** One turn of that loop: a bad time ends the item, a too long item is still checked for conflicts. */
    method PreviewItem(k: nat, item: Item, world: World, now: int) returns (found: seq<Finding>)
      ensures found == Findings(k, item, rows, world, now)
    {
      hide CardProblem;
      found := [];
      if item.endAt <= item.startAt || item.startAt < now - START_GRACE || item.serverId !in world.servers {
        return [Finding(k, InvalidTime)];
      }
      if ExceedsServerLimit(item, world.servers[item.serverId]) {
        found := found + [Finding(k, TooLong)];
      }
      var problem := CardProblem(item, rows, world.cards);
      if problem.Some? {
        found := found + [Finding(k, problem.value)];
      }
    }

    /** `modify_reservation`: writes columns as it goes, and raises with those writes still in the session. */
    method ModifyReservation(id: nat, req: ModifyRequest, world: World) returns (err: Option<ModifyError>)
      modifies this
      ensures id >= |old(rows)| ==> err == Some(NoSuchRow) && Snapshot() == old(Snapshot())
      ensures id < |old(rows)| ==>
                var (r, e) := ModifyRow(old(rows), id, req, world);
                err == e && Snapshot() == old(Snapshot()).(rows := old(rows)[id := r])
    {
      if id >= |rows| {
        return Some(NoSuchRow);
      }
      var row := rows[id];
      err := ModifyGuard(row, req);
      if err.Some? {
        assert rows[id := row] == rows;
        return;
      }
      var others := Without(rows, id);
      if req.startAt.Some? {
        row := row.(startAt := req.startAt.value);
      }
      if req.endAt.Some? {
        row := row.(endAt := req.endAt.value);
      }
      rows := rows[id := row];
      if MovesTimes(req) {
        var problem := TimeProblem(ItemOf(row), world, req.now);
        if problem.None? {
          problem := CardProblem(ItemOf(row), others, world.cards);
        }
        if problem.Some? {
          return Some(BadTimes(problem.value));
        }
      }
      if TooLarge(req.script) {
        return Some(ModifiedScriptTooLarge);
      }
      row, err := WriteScriptFields(row, req);
      rows := rows[id := row];
    }

    /** The script columns; a trigger time outside the row's window is refused after the script is written. */
    method WriteScriptFields(r: Row, req: ModifyRequest) returns (row: Row, err: Option<ModifyError>)
      ensures var w := WithScript(r, req);
        if req.scriptAt.Some? && !(w.startAt <= req.scriptAt.value < w.endAt)
        then row == w && err == Some(ModifiedScriptTimeOutside)
        else err.None? && row == w.(scriptAt := if req.scriptAt.Some? then req.scriptAt else w.scriptAt,
                                    maxRuntime := if req.maxRuntime.Some? then req.maxRuntime else w.maxRuntime)
    {
      row, err := r, None;
      if req.script.Some? {
        row := row.(script := req.script);
        if row.scriptAt.None? && req.scriptAt.None? {
          row := row.(scriptAt := Some(row.startAt));
        }
      }
      if req.scriptAt.Some? {
        if !(row.startAt <= req.scriptAt.value < row.endAt) {
          return row, Some(ModifiedScriptTimeOutside);
        }
        row := row.(scriptAt := req.scriptAt);
      }
      if req.maxRuntime.Some? {
        row := row.(maxRuntime := req.maxRuntime);
      }
    }

    /** The PATCH request around it: flush and audit, or the commit that follows a mapped error. */
    method PatchReservation(id: nat, req: ModifyRequest, world: World, policy: OnRefusal) returns (err: Option<ModifyError>)
      modifies this
      ensures var (s, e) := Modify(old(Snapshot()), id, req, world, policy); Snapshot() == s && err == e
    {
      var committed := rows;
      err := ModifyReservation(id, req, world);
      if id < |rows| {
        if err.None? {
          if DbChecks(rows[id]) {
            audit := audit + [Modified(id)];
          } else {
            rows := committed;
            err := Some(ConstraintViolated);
          }
        } else if policy == RollBack || !DbChecks(rows[id]) {
          rows := committed;
        }
      }
    }

    /** `cancel_reservation` */
    method CancelReservation(id: nat, actorId: nat, canAdmin: bool) returns (err: Option<CancelError>)
      modifies this
      ensures var (s, e) := CancelRow(old(Snapshot()), id, actorId, canAdmin); Snapshot() == s && err == e
    {
      if id >= |rows| {
        return Some(CancelNoSuchRow);
      }
      if Terminal(rows[id].status) {
        return Some(AlreadyTerminal);
      }
      if !canAdmin && rows[id].userId != actorId {
        return Some(NotPermitted);
      }
      rows := rows[id := rows[id].(status := Cancelled)];
      audit := audit + [Cancel(id)];
      err := None;
    }

    /** `cancel_group`: select the live rows, refuse if a script runs, else cancel them one by one. */
    method CancelReservationGroup(groupId: nat, actorId: nat, canAdmin: bool) returns (err: Option<CancelError>)
      modifies this
      ensures var (s, e) := CancelRows(old(Snapshot()), groupId, actorId, canAdmin); Snapshot() == s && err == e
    {
      var ids := GroupIds(rows, groupId);
      GroupIdsInRange(rows, groupId);
      if ids == [] {
        return Some(CancelNoSuchRow);
      }
      if !canAdmin && rows[ids[0]].userId != actorId {
        return Some(NotPermitted);
      }
      var running := RunningIds(rows, groupId);
      if running != [] {
        return Some(RunningScripts(running));
      }
      for k := 0 to |ids|
        invariant |rows| == |old(rows)| && audit == old(audit) && sent == old(sent)
        invariant forall i :: 0 <= i < |rows| ==>
                    rows[i] == if i in ids[..k] then old(rows)[i].(status := Cancelled) else old(rows)[i]
      {
        rows := rows[ids[k] := rows[ids[k]].(status := Cancelled)];
        assert forall i :: i in ids[..k + 1] <==> i in ids[..k] || i == ids[k];
      }
      assert ids[..|ids|] == ids;
      assert rows == CancelledGroup(old(rows), groupId);
      audit := audit + [CancelGroup(groupId, |ids|)];
      err := None;
    }

    /** The three status transitions; `ok` is false where the code raises. */
    method TransitionTo(id: nat, target: Status) returns (ok: bool)
      modifies this
      ensures Snapshot() == MoveTo(old(Snapshot()), id, target)
      ensures ok <==> id < |old(rows)| && StatusEdge(old(rows)[id].status, target)
    {
      ok := id < |rows| && StatusEdge(rows[id].status, target);
      if ok {
        var from := rows[id].status;
        rows := rows[id := rows[id].(status := target)];
        audit := audit + [Transition(id, from, target)];
      }
    }

    /** `update_script_status` */
    method UpdateScriptStatus(id: nat, target: ScriptStatus) returns (ok: bool)
      modifies this
      ensures Snapshot() == MoveScript(old(Snapshot()), id, target)
      ensures ok <==> id < |old(rows)| && ScriptEdge(old(rows)[id].scriptStatus, target)
    {
      ok := id < |rows| && ScriptEdge(rows[id].scriptStatus, target);
      if ok {
        var from := rows[id].scriptStatus;
        rows := rows[id := rows[id].(scriptStatus := Some(target))];
        audit := audit + [ScriptLifecycle(id, from, target)];
      }
    }

    /** `mark_script_dispatched`, with the request the tick queues for it. */
    method MarkScriptDispatched(id: nat, now: int) returns (ok: bool)
      modifies this
      ensures Snapshot() == MarkDispatched(old(Snapshot()), id, now)
      ensures ok <==> id < |old(rows)| && old(rows)[id].status == Active && old(rows)[id].scriptStatus.None?
    {
      ok := id < |rows| && rows[id].status == Active && rows[id].scriptStatus.None?;
      if ok {
        rows := rows[id := rows[id].(scriptStatus := Some(ScriptRunning), dispatchStartedAt := Some(now))];
        audit := audit + [ScriptDispatched(id, now)];
        sent := sent + [Execute(id, now)];
      }
    }
  }
}
