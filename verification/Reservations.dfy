/**
 The reservation table, its two status machines and the audit log they write to.

 Instants are integer microseconds (the columns are DATETIME(6)). The table is a
 sequence: ids are handed out in order and rows are never deleted, so a row's id is
 its position.
 */
module Reservations {
  import opened Prelude

  const SECOND: int := 1_000_000
  const HOUR: int := 3_600_000_000

  datatype Status = Scheduled | Active | Completed | Cancelled | Failed

  datatype ScriptStatus = ScriptRunning | ScriptCompleted | ScriptFailed | ScriptKilled

  /** The database only stores a compute share between 1 and 100. */
  type Share = p: int | 1 <= p <= 100 witness 1

  /** The columns some rule reads. `script` holds the UTF-8 bytes, one per char. */
  datatype Row = Row(
    userId: nat,
    serverId: nat,
    gpuId: Option<nat>,
    linkId: nat,
    groupId: nat,
    startAt: int,
    endAt: int,
    status: Status,
    memoryMb: Option<nat>,
    sharePct: Option<Share>,
    script: Option<string>,
    scriptAt: Option<int>,
    maxRuntime: Option<nat>,
    scriptStatus: Option<ScriptStatus>,
    dispatchStartedAt: Option<int>
  )

  /** The audit actions that speak about reservations. */
  datatype Audit =
    | Created(id: nat, groupId: nat)
    | Modified(id: nat)
    | Cancel(id: nat)
    | CancelGroup(groupId: nat, count: nat)
    | Transition(id: nat, from: Status, to: Status)
    | ScriptDispatched(id: nat, at: int)
    | ScriptLifecycle(id: nat, old_: Option<ScriptStatus>, new_: ScriptStatus)
    | LifecycleStarted(id: nat)
    | DispatchAttemptFailed(id: nat)
    | DispatchRetry(id: nat, attempt: nat, at: int)
    | CancelAttemptFailed(id: nat)

  /** One `backend.script.execute` request queued for the agent. */
  datatype Execute = Execute(id: nat, at: int)

  /** The committed database state, and the execute requests queued so far. */
  datatype Store = Store(rows: seq<Row>, audit: seq<Audit>, sent: seq<Execute>)

  predicate Live(r: Row) {
    r.status == Scheduled || r.status == Active
  }

  predicate Terminal(s: Status) {
    s == Completed || s == Cancelled || s == Failed
  }

  /** The edges of `_ALLOWED_TRANSITIONS`. */
  predicate StatusEdge(from: Status, to: Status) {
    match from
    case Scheduled => to == Active || to == Cancelled
    case Active => to == Completed || to == Failed || to == Cancelled
    case _ => false
  }

  /** The edges of `_ALLOWED_SCRIPT_TRANSITIONS`. */
  predicate ScriptEdge(from: Option<ScriptStatus>, to: ScriptStatus) {
    match from
    case None => to == ScriptRunning
    case Some(ScriptRunning) => to != ScriptRunning
    case Some(_) => false
  }

  /** The table's CHECK constraints `ck_res_time_order` and `ck_res_script_time`. */
  predicate DbChecks(r: Row) {
    && r.startAt < r.endAt
    && (r.scriptAt.Some? ==> r.startAt <= r.scriptAt.value < r.endAt)
  }

  /** What another component knows of servers, cards and account links at one call. */
  datatype Server = Server(maxHours: Option<nat>)

  datatype Link = Link(userId: nat, active: bool, adminDeclared: bool)

  datatype World = World(servers: map<nat, Server>, cards: map<nat, Option<nat>>, links: map<nat, Link>)
}
