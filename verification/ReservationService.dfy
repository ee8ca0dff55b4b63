/**
 The writers of the reservation table: create, preview, modify, cancel and the status
 transitions. Each call is one atomic step (the code holds row and range locks, or runs
 SERIALIZABLE).
 */
module ReservationService {
  import opened Prelude
  import opened Reservations
  import opened Conflicts

  const SCRIPT_MAX_BYTES := 4096
  const START_GRACE: int := 300_000_000

  // --------------------------------------------------------------------- create, preview

  datatype CreateRequest = CreateRequest(
    items: seq<Item>,
    userId: nat,
    script: Option<string>,
    scriptAt: Option<int>,
    maxRuntime: Option<nat>,
    shareScript: bool,
    groupId: nat,
    now: int
  )

  /** What can be wrong with one item's time, server, length, card or window. */
  datatype Problem = InvalidTime | TooLong | Clash(conflict: Conflict)

  datatype CreateError =
    | NoItems
    | ScriptTooLarge
    | CardlessWithoutScript(index: nat)
    | CardlessWithShare(index: nat)
    | NoActiveLink(index: nat)
    | LinkNotVerified(index: nat)
    | ScriptTimeOutside(index: nat)
    | BadItem(index: nat, problem: Problem)

  /** One conflict record of a preview. */
  datatype Finding = Finding(index: nat, problem: Problem)

  predicate TooLarge(script: Option<string>) {
    script.Some? && |script.value| > SCRIPT_MAX_BYTES
  }

  /** `_validate_item_time` */
  function TimeProblem(item: Item, world: World, now: int): Option<Problem> {
    if item.endAt <= item.startAt then Some(InvalidTime)
    else if item.startAt < now - START_GRACE then Some(InvalidTime)
    else if item.serverId !in world.servers then Some(InvalidTime)
    else if ExceedsServerLimit(item, world.servers[item.serverId]) then Some(TooLong)
    else None
  }

  predicate ExceedsServerLimit(item: Item, server: Server) {
    server.maxHours.Some? && item.endAt - item.startAt > server.maxHours.value * HOUR
  }

  /** The card lookup and the conflict matrix; an item without a card has no conflict. */
  function CardProblem(item: Item, rows: seq<Row>, cards: map<nat, Option<nat>>): Option<Problem> {
    if item.gpuId.None? then None
    else if item.gpuId.value !in cards then Some(InvalidTime)
    else
      match Verdict(item, rows, cards)
      case None => None
      case Some(c) => Some(Clash(c))
  }

  function CardlessError(req: CreateRequest, k: nat): Option<CreateError>
    requires k < |req.items|
  {
    var item := req.items[k];
    if item.gpuId.Some? then None
    else if req.script.None? then Some(CardlessWithoutScript(k))
    else if item.memoryMb.Some? || item.sharePct.Some? then Some(CardlessWithShare(k))
    else None
  }

  /** `_load_link_or_raise` */
  function LinkError(req: CreateRequest, world: World, k: nat): Option<CreateError>
    requires k < |req.items|
  {
    var id := req.items[k].linkId;
    if id !in world.links || !world.links[id].active || world.links[id].userId != req.userId then Some(NoActiveLink(k))
    else if world.links[id].adminDeclared then Some(LinkNotVerified(k))
    else None
  }

  function ScriptTimeError(req: CreateRequest, k: nat): Option<CreateError>
    requires k < |req.items|
  {
    if req.scriptAt.Some? && !(req.items[k].startAt <= req.scriptAt.value < req.items[k].endAt)
    then Some(ScriptTimeOutside(k))
    else None
  }

  /** One item of the validating pass. */
  function PrepassError(req: CreateRequest, world: World, k: nat): Option<CreateError>
    requires k < |req.items|
  {
    match TimeProblem(req.items[k], world, req.now)
    case Some(p) => Some(BadItem(k, p))
    case None =>
      if LinkError(req, world, k).Some? then LinkError(req, world, k) else ScriptTimeError(req, k)
  }

  /** One item of the conflict pass. */
  function ClashError(req: CreateRequest, rows: seq<Row>, world: World, k: nat): Option<CreateError>
    requires k < |req.items|
  {
    match CardProblem(req.items[k], rows, world.cards)
    case Some(p) => Some(BadItem(k, p))
    case None => None
  }

  datatype Pass = Cardless | Prepass | Clashes

  function PassError(pass: Pass, req: CreateRequest, rows: seq<Row>, world: World, k: nat): Option<CreateError>
    requires k < |req.items|
  {
    match pass
    case Cardless => CardlessError(req, k)
    case Prepass => PrepassError(req, world, k)
    case Clashes => ClashError(req, rows, world, k)
  }

  /** `e` is what a fail-fast loop over the items raises. */
  ghost predicate FirstError(pass: Pass, req: CreateRequest, rows: seq<Row>, world: World, e: Option<CreateError>) {
    match e
    case None => forall k: nat :: k < |req.items| ==> PassError(pass, req, rows, world, k).None?
    case Some(_) =>
      exists k: nat :: k < |req.items| && PassError(pass, req, rows, world, k) == e
                       && forall j: nat :: j < k ==> PassError(pass, req, rows, world, j).None?
  }

  /** Create stops at the first pass that finds something, and there at the first item. */
  ghost predicate CreateRaises(req: CreateRequest, rows: seq<Row>, world: World, e: CreateError) {
    if req.items == [] then e == NoItems
    else if TooLarge(req.script) then e == ScriptTooLarge
    else if !FirstError(Cardless, req, rows, world, None) then FirstError(Cardless, req, rows, world, Some(e))
    else if !FirstError(Prepass, req, rows, world, None) then FirstError(Prepass, req, rows, world, Some(e))
    else FirstError(Clashes, req, rows, world, Some(e))
  }

  ghost predicate CreateAccepts(req: CreateRequest, rows: seq<Row>, world: World) {
    && req.items != []
    && !TooLarge(req.script)
    && forall pass: Pass :: FirstError(pass, req, rows, world, None)
  }

  function CarriedScript(req: CreateRequest, k: nat): Option<string> {
    if req.shareScript || k == 0 then req.script else None
  }

  /** The row inserted for item `k`. An empty script carries no trigger time, as Python's truth test has it. */
  function NewRow(req: CreateRequest, k: nat): Row
    requires k < |req.items|
  {
    var item, script := req.items[k], CarriedScript(req, k);
    var carries := script.Some? && script.value != "";
    Row(req.userId, item.serverId, item.gpuId, item.linkId, req.groupId, item.startAt, item.endAt, Scheduled,
        item.memoryMb, item.sharePct, script,
        if carries then (if req.scriptAt.Some? then req.scriptAt else Some(item.startAt)) else None,
        if carries then req.maxRuntime else None,
        None, None)
  }

  function NewRows(req: CreateRequest): seq<Row> {
    seq(|req.items|, k requires 0 <= k < |req.items| => NewRow(req, k))
  }

  function CreatedAudits(first: nat, n: nat, groupId: nat): seq<Audit> {
    seq(n, k requires 0 <= k < n => Created(first + k, groupId))
  }

  function Inserted(s: Store, req: CreateRequest): Store {
    s.(rows := s.rows + NewRows(req), audit := s.audit + CreatedAudits(|s.rows|, |req.items|, req.groupId))
  }

  /** What preview says of item `k`; a too long item is still checked for conflicts. */
  function Findings(k: nat, item: Item, rows: seq<Row>, world: World, now: int): seq<Finding> {
    match TimeProblem(item, world, now)
    case Some(InvalidTime) => [Finding(k, InvalidTime)]
    case t =>
      (if t.Some? then [Finding(k, t.value)] else [])
      + match CardProblem(item, rows, world.cards)
        case Some(p) => [Finding(k, p)]
        case None => []
  }

  function AllFindings(items: seq<Item>, rows: seq<Row>, world: World, now: int): seq<Finding> {
    if items == [] then []
    else
      var k := |items| - 1;
      AllFindings(items[..k], rows, world, now) + Findings(k, items[k], rows, world, now)
  }

  // ------------------------------------------------------------------------------- modify

  datatype ModifyRequest = ModifyRequest(
    actorId: nat,
    startAt: Option<int>,
    endAt: Option<int>,
    script: Option<string>,
    scriptAt: Option<int>,
    maxRuntime: Option<nat>,
    now: int
  )

  datatype ModifyError =
    | NoSuchRow
    | NotScheduled
    | NotOwner
    | TimingFrozen
    | BadTimes(problem: Problem)
    | ModifiedScriptTooLarge
    | ModifiedScriptTimeOutside
    | ConstraintViolated

  /** The checks made before any column is written. */
  function ModifyGuard(r: Row, req: ModifyRequest): Option<ModifyError> {
    if r.status != Scheduled then Some(NotScheduled)
    else if r.userId != req.actorId then Some(NotOwner)
    else if (req.scriptAt.Some? || req.maxRuntime.Some?) && (r.scriptStatus.Some? || r.dispatchStartedAt.Some?)
    then Some(TimingFrozen)
    else None
  }

  /** The row with the times asked for, as the code writes them before it validates them. */
  function Retimed(r: Row, req: ModifyRequest): Row {
    r.(startAt := req.startAt.GetOr(r.startAt), endAt := req.endAt.GetOr(r.endAt))
  }

  predicate MovesTimes(req: ModifyRequest) {
    req.startAt.Some? || req.endAt.Some?
  }

  /** The table without row `id`: a row out of play never meets a window. */
  function Without(rows: seq<Row>, id: nat): seq<Row>
    requires id < |rows|
  {
    rows[id := rows[id].(status := Cancelled)]
  }

  function RetimeProblem(rows: seq<Row>, id: nat, req: ModifyRequest, world: World): Option<Problem>
    requires id < |rows|
  {
    if !MovesTimes(req) then None
    else
      var item := ItemOf(Retimed(rows[id], req));
      var t := TimeProblem(item, world, req.now);
      if t.Some? then t else CardProblem(item, Without(rows, id), world.cards)
  }

  function WithScript(r: Row, req: ModifyRequest): Row {
    if req.script.None? then r
    else r.(script := req.script,
            scriptAt := if r.scriptAt.None? && req.scriptAt.None? then Some(r.startAt) else r.scriptAt)
  }

  /** The row as `modify_reservation` leaves it in the session, and what it raised. */
  function ModifyRow(rows: seq<Row>, id: nat, req: ModifyRequest, world: World): (Row, Option<ModifyError>)
    requires id < |rows|
  {
    var r := rows[id];
    if ModifyGuard(r, req).Some? then (r, ModifyGuard(r, req))
    else
      var r1 := Retimed(r, req);
      var p := RetimeProblem(rows, id, req, world);
      if p.Some? then (r1, Some(BadTimes(p.value)))
      else if TooLarge(req.script) then (r1, Some(ModifiedScriptTooLarge))
      else
        var r2 := WithScript(r1, req);
        if req.scriptAt.Some? && !(r2.startAt <= req.scriptAt.value < r2.endAt)
        then (r2, Some(ModifiedScriptTimeOutside))
        else
          var r3 := if req.scriptAt.Some? then r2.(scriptAt := req.scriptAt) else r2;
          (if req.maxRuntime.Some? then r3.(maxRuntime := req.maxRuntime) else r3, None)
  }

  /**
   What becomes of the session when a service error leaves the request handler. The
   handler turns it into an HTTPException, and the session dependency commits on that.
   */
  datatype OnRefusal = RollBack | CommitDirty

  function Modify(s: Store, id: nat, req: ModifyRequest, world: World, policy: OnRefusal): (Store, Option<ModifyError>) {
    if id >= |s.rows| then (s, Some(NoSuchRow))
    else
      var (r, e) := ModifyRow(s.rows, id, req, world);
      if e.None? then
        if DbChecks(r) then (s.(rows := s.rows[id := r], audit := s.audit + [Modified(id)]), None)
        else (s, Some(ConstraintViolated))
      else if policy == CommitDirty && DbChecks(r) then (s.(rows := s.rows[id := r]), e)
      else (s, e)
  }

  // ------------------------------------------------------------------- cancel, transitions

  datatype CancelError = CancelNoSuchRow | AlreadyTerminal | NotPermitted | RunningScripts(ids: seq<nat>)

  /** `cancel_reservation` */
  function CancelRow(s: Store, id: nat, actorId: nat, canAdmin: bool): (Store, Option<CancelError>) {
    if id >= |s.rows| then (s, Some(CancelNoSuchRow))
    else if Terminal(s.rows[id].status) then (s, Some(AlreadyTerminal))
    else if !canAdmin && s.rows[id].userId != actorId then (s, Some(NotPermitted))
    else (s.(rows := s.rows[id := s.rows[id].(status := Cancelled)], audit := s.audit + [Cancel(id)]), None)
  }

  predicate InGroup(r: Row, groupId: nat) {
    r.groupId == groupId && Live(r)
  }

  /** The ids of the group's rows still scheduled or active. */
  function GroupIds(rows: seq<Row>, groupId: nat): seq<nat> {
    if rows == [] then []
    else
      var n := |rows| - 1;
      GroupIds(rows[..n], groupId) + (if InGroup(rows[n], groupId) then [n] else [])
  }

  function RunningIds(rows: seq<Row>, groupId: nat): seq<nat> {
    if rows == [] then []
    else
      var n := |rows| - 1;
      RunningIds(rows[..n], groupId)
      + (if InGroup(rows[n], groupId) && rows[n].status == Active && rows[n].scriptStatus == Some(ScriptRunning)
         then [n] else [])
  }

  function CancelledGroup(rows: seq<Row>, groupId: nat): seq<Row> {
    seq(|rows|, i requires 0 <= i < |rows| =>
      if InGroup(rows[i], groupId) then rows[i].(status := Cancelled) else rows[i])
  }

  lemma {:induction false} GroupIdsInRange(rows: seq<Row>, groupId: nat)
    ensures forall k :: 0 <= k < |GroupIds(rows, groupId)| ==> GroupIds(rows, groupId)[k] < |rows|
    ensures forall i: nat :: i in GroupIds(rows, groupId) <==> i < |rows| && InGroup(rows[i], groupId)
  {
    if rows != [] {
      var n := |rows| - 1;
      GroupIdsInRange(rows[..n], groupId);
      assert forall i: nat :: i in GroupIds(rows, groupId) <==>
          i in GroupIds(rows[..n], groupId) || (i == n && InGroup(rows[n], groupId));
    }
  }

  /** `cancel_group`: all live rows of the group, or none. */
  function CancelRows(s: Store, groupId: nat, actorId: nat, canAdmin: bool): (Store, Option<CancelError>) {
    var ids := GroupIds(s.rows, groupId);
    GroupIdsInRange(s.rows, groupId);
    if ids == [] then (s, Some(CancelNoSuchRow))
    else if !canAdmin && s.rows[ids[0]].userId != actorId then (s, Some(NotPermitted))
    else if RunningIds(s.rows, groupId) != [] then (s, Some(RunningScripts(RunningIds(s.rows, groupId))))
    else (s.(rows := CancelledGroup(s.rows, groupId), audit := s.audit + [CancelGroup(groupId, |ids|)]), None)
  }

  /** `transition_to_active`, `transition_to_completed` and `transition_to_failed`; an illegal edge changes nothing. */
  function MoveTo(s: Store, id: nat, target: Status): Store {
    if id < |s.rows| && StatusEdge(s.rows[id].status, target) then
      s.(rows := s.rows[id := s.rows[id].(status := target)],
         audit := s.audit + [Transition(id, s.rows[id].status, target)])
    else s
  }

  /** `update_script_status` */
  function MoveScript(s: Store, id: nat, target: ScriptStatus): Store {
    if id < |s.rows| && ScriptEdge(s.rows[id].scriptStatus, target) then
      s.(rows := s.rows[id := s.rows[id].(scriptStatus := Some(target))],
         audit := s.audit + [ScriptLifecycle(id, s.rows[id].scriptStatus, target)])
    else s
  }

  /** `mark_script_dispatched`, and the request it queues. */
  function MarkDispatched(s: Store, id: nat, now: int): Store {
    if id < |s.rows| && s.rows[id].status == Active && s.rows[id].scriptStatus.None? then
      s.(rows := s.rows[id := s.rows[id].(scriptStatus := Some(ScriptRunning), dispatchStartedAt := Some(now))],
         audit := s.audit + [ScriptDispatched(id, now)],
         sent := s.sent + [Execute(id, now)])
    else s
  }
}
