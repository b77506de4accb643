/** Approving and executing as concurrent transactions (app/api/approvals.py,
    app/tools/executor.py, app/services/approval.py, app/services/redis_lock.py).

    Any number of requests run at once. A request's writes stay in its transaction until its
    commit; the approval row it locked with SELECT ... FOR UPDATE stays locked until then.
    The Redis lock has no such tie: it may expire at any step, and an execution gives it back
    before it commits. The trace is what an observer of the whole system would write down. */
module Protocol {
  import opened Domain
  import opened Policy
  import opened ApprovalModel

  type TxId = nat
  type ApprovalId = nat

  /** `seed` is the catalog at process start; `rereads` is whether the locked read of an
      execution returns the committed row, or the copy which the same session already read
      without the lock. */
  datatype Config = Config(registry: Registry, seed: Catalog, rereads: bool)

  datatype Request =
    | Review(op: Op)
    | Execute
    | Call(tool: string, payload: Payload)

  datatype Phase =
    | Waiting                                       // nothing read yet
    | Glanced(row: Row)                             // status checked without a lock
    | HasRedis(row: Row)                            // inside the Redis lock
    | HasRow(row: Row)                              // row locked and found executable
    | InCall(row: Row, calls: nat)                 // inside _execute_tool_call
    | Flushed(row: Row, op: Op, inRedis: bool)      // written, not committed
    | Aborting(inRedis: bool)                       // row locked, execution refused
    | MayCall                                       // execute(): decided ALLOW
    | MustAsk                                       // execute(): decided REQUEST_APPROVAL
    | Done

  datatype Tx = Tx(id: ApprovalId, request: Request, phase: Phase)

  datatype Event =
    | PolicyDecided(tx: TxId, tool: string, payload: Payload, action: Action)
    | DirectHandlerCall(tx: TxId, tool: string, payload: Payload)
    | Entered(tx: TxId, id: ApprovalId, payload: Payload)
    | ApprovedHandlerCall(tx: TxId, id: ApprovalId, tool: string, payload: Payload)
    | CatalogChanged(tool: string, sensitivity: Sensitivity)
    | Committed(tx: TxId, id: ApprovalId, op: Op, record: AuditRecord)

  /** An append-only log, newest entry outermost. */
  datatype Log = Empty | Then(before: Log, last: Event)

  datatype State = State(
    rows: map<ApprovalId, Row>,
    rowLock: map<ApprovalId, TxId>,
    redis: map<ApprovalId, TxId>,
    txs: map<TxId, Tx>,
    catalog: Catalog,
    trace: Log
  )

  datatype Step =
    | Begin(t: TxId, id: ApprovalId, request: Request)
    | ReadUnlocked(t: TxId)
    | AcquireRedis(t: TxId)
    | GiveUpRedis(t: TxId)
    | LockForReview(t: TxId)
    | LockForExecution(t: TxId)
    | Enter(t: TxId)
    | CallHandler(t: TxId)
    | Leave(t: TxId, ok: bool)
    | ReleaseRedis(t: TxId)
    | Commit(t: TxId)
    | CommitNothing(t: TxId)
    | ExpireRedis(id: ApprovalId)
    | SetCatalog(tool: string, sensitivity: Sensitivity)
    | Propose(t: TxId, tool: string, payload: Payload)
    | CallDirect(t: TxId)
    | CreateApproval(t: TxId, id: ApprovalId)

  const EXECUTOR := "human_admin"
  const AGENT := "agent"

  function Initial(cfg: Config): State {
    State(map[], map[], map[], map[], cfg.seed, Empty)
  }

  function Moved(s: State, t: TxId, phase: Phase): State
    requires t in s.txs
  {
    s.(txs := s.txs[t := s.txs[t].(phase := phase)])
  }

  function Logged(s: State, e: Event): State {
    s.(trace := Then(s.trace, e))
  }

  /** The release script: delete the key only while it still holds the caller's token. */
  function CompareAndDelete(redis: map<ApprovalId, TxId>, id: ApprovalId, token: TxId): map<ApprovalId, TxId> {
    if id in redis && redis[id] == token then redis - {id} else redis
  }

  /** What execute_approved demands of the row it locked, before it starts the tool call. */
  predicate Executable(cfg: Config, row: Row) {
    CanExecute(row.status) && row.call.Some? && row.toolName in cfg.registry
  }

  /** A request arrives: a reviewer's decision or an execution. */
  function DoBegin(s: State, t: TxId, id: ApprovalId, request: Request): Option<State> {
    if t in s.txs then None
    else if request.Execute? || (request.Review? && (request.op.Approve? || request.op.Reject?))
    then Some(s.(txs := s.txs[t := Tx(id, request, Waiting)]))
    else None
  }

  /** The execute endpoint first reads the status without a lock. */
  function DoReadUnlocked(s: State, t: TxId): Option<State> {
    if !(t in s.txs && s.txs[t].phase.Waiting? && s.txs[t].request.Execute?) then None
    else
      var id := s.txs[t].id;
      Some(Moved(s, t, if id in s.rows && CanExecute(s.rows[id].status) then Glanced(s.rows[id]) else Done))
  }

  function DoAcquireRedis(s: State, t: TxId): Option<State> {
    if t in s.txs && s.txs[t].phase.Glanced? && s.txs[t].id !in s.redis
    then Some(Moved(s, t, HasRedis(s.txs[t].phase.row)).(redis := s.redis[s.txs[t].id := t]))
    else None
  }

  function DoGiveUpRedis(s: State, t: TxId): Option<State> {
    if t in s.txs && s.txs[t].phase.Glanced? then Some(Moved(s, t, Done)) else None
  }

  /** A review locks the row, checks the status under the lock and writes, all before its
      commit; a refused review ends its transaction, which drops the lock again. */
  function DoLockForReview(s: State, t: TxId): Option<State> {
    if !(t in s.txs && s.txs[t].phase.Waiting? && s.txs[t].request.Review? && s.txs[t].id !in s.rowLock) then None
    else
      var id, op := s.txs[t].id, s.txs[t].request.op;
      var ok := id in s.rows && Allowed(s.rows[id], op);
      Some(Moved(s, t, if ok then Flushed(s.rows[id], op, false) else Done)
           .(rowLock := if ok then s.rowLock[id := t] else s.rowLock))
  }

  function DoLockForExecution(cfg: Config, s: State, t: TxId): Option<State> {
    if !(t in s.txs && s.txs[t].phase.HasRedis? && s.txs[t].id in s.rows && s.txs[t].id !in s.rowLock) then None
    else
      var id := s.txs[t].id;
      var row := if cfg.rereads then s.rows[id] else s.txs[t].phase.row;
      Some(Moved(s, t, if Executable(cfg, row) then HasRow(row) else Aborting(true)).(rowLock := s.rowLock[id := t]))
  }

  function DoEnter(s: State, t: TxId): Option<State> {
    if !(t in s.txs && s.txs[t].phase.HasRow?) then None
    else
      var row := s.txs[t].phase.row;
      Some(Logged(Moved(s, t, InCall(row, 0)), Entered(t, s.txs[t].id, FinalPayload(row))))
  }

  /** One attempt at the handler, behind the validation of the payload. */
  function DoCallHandler(cfg: Config, s: State, t: TxId): Option<State> {
    if !(t in s.txs && s.txs[t].phase.InCall?) then None
    else
      var row, calls := s.txs[t].phase.row, s.txs[t].phase.calls;
      if row.toolName in cfg.registry && cfg.registry[row.toolName].accepts(FinalPayload(row))
      then Some(Logged(Moved(s, t, InCall(row, calls + 1)),
                       ApprovedHandlerCall(t, s.txs[t].id, row.toolName, FinalPayload(row))))
      else None
  }

  function DoLeave(s: State, t: TxId, ok: bool): Option<State> {
    if t in s.txs && s.txs[t].phase.InCall? && (ok ==> s.txs[t].phase.calls > 0)
    then Some(Moved(s, t, Flushed(s.txs[t].phase.row, Finish(EXECUTOR, ok), true)))
    else None
  }

  function DoReleaseRedis(s: State, t: TxId): Option<State> {
    if !(t in s.txs && (s.txs[t].phase.Flushed? || s.txs[t].phase.Aborting?) && s.txs[t].phase.inRedis) then None
    else
      Some(Moved(s, t, s.txs[t].phase.(inRedis := false))
           .(redis := CompareAndDelete(s.redis, s.txs[t].id, t)))
  }

  /** The columns an operation writes: an UPDATE leaves the others as they now are. */
  function Written(now: Row, after: Row, op: Op): Row {
    match op
    case Approve(_, Some(_)) => now.(edited := after.edited, status := after.status, reviewer := after.reviewer)
    case Approve(_, None) => now.(status := after.status, reviewer := after.reviewer)
    case Reject(_) => now.(status := after.status, reviewer := after.reviewer, call := after.call)
    case _ => now.(status := after.status, call := after.call)
  }

  function DoCommit(s: State, t: TxId): Option<State> {
    if !(t in s.txs && s.txs[t].phase.Flushed? && !s.txs[t].phase.inRedis && s.txs[t].id in s.rows) then None
    else
      var id, row, op := s.txs[t].id, s.txs[t].phase.row, s.txs[t].phase.op;
      if !Allowed(row, op) then None
      else
        Some(Logged(Moved(s, t, Done), Committed(t, id, op, RecordFor(row, op)))
             .(rows := s.rows[id := Written(s.rows[id], After(row, op), op)], rowLock := s.rowLock - {id}))
  }

  function DoCommitNothing(s: State, t: TxId): Option<State> {
    if t in s.txs && s.txs[t].phase.Aborting? && !s.txs[t].phase.inRedis
    then Some(Moved(s, t, Done).(rowLock := s.rowLock - {s.txs[t].id}))
    else None
  }

  function DoExpireRedis(s: State, id: ApprovalId): Option<State> {
    if id in s.redis then Some(s.(redis := s.redis - {id})) else None
  }

  function DoSetCatalog(s: State, tool: string, sensitivity: Sensitivity): Option<State> {
    Some(Logged(s, CatalogChanged(tool, sensitivity)).(catalog := s.catalog[tool := sensitivity]))
  }

  /** ToolExecutor.execute asks the policy once, before it does anything else. */
  function DoPropose(cfg: Config, s: State, t: TxId, tool: string, payload: Payload): Option<State> {
    if t in s.txs then None
    else
      var action := Decide(cfg.registry, s.catalog, tool, payload).action;
      var phase := match action case Allow => MayCall case RequestApproval => MustAsk case Deny => Done;
      Some(Logged(s.(txs := s.txs[t := Tx(0, Call(tool, payload), phase)]), PolicyDecided(t, tool, payload, action)))
  }

  function DoCallDirect(s: State, t: TxId): Option<State> {
    if t in s.txs && s.txs[t].phase.MayCall? && s.txs[t].request.Call?
    then Some(Logged(s, DirectHandlerCall(t, s.txs[t].request.tool, s.txs[t].request.payload)))
    else None
  }

  /** The new approval becomes visible to others with its commit. */
  function DoCreateApproval(s: State, t: TxId, id: ApprovalId): Option<State> {
    if !(t in s.txs && s.txs[t].phase.MustAsk? && s.txs[t].request.Call? && id !in s.rows) then None
    else
      var op := Create(AGENT, s.txs[t].request.tool, s.txs[t].request.payload);
      Some(Logged(Moved(s, t, Done), Committed(t, id, op, CreationRecord(op))).(rows := s.rows[id := Created(op)]))
  }

  /** One step of the system, or None where the step cannot be taken. */
  function Apply(cfg: Config, s: State, step: Step): Option<State> {
    match step
    case Begin(t, id, request) => DoBegin(s, t, id, request)
    case ReadUnlocked(t) => DoReadUnlocked(s, t)
    case AcquireRedis(t) => DoAcquireRedis(s, t)
    case GiveUpRedis(t) => DoGiveUpRedis(s, t)
    case LockForReview(t) => DoLockForReview(s, t)
    case LockForExecution(t) => DoLockForExecution(cfg, s, t)
    case Enter(t) => DoEnter(s, t)
    case CallHandler(t) => DoCallHandler(cfg, s, t)
    case Leave(t, ok) => DoLeave(s, t, ok)
    case ReleaseRedis(t) => DoReleaseRedis(s, t)
    case Commit(t) => DoCommit(s, t)
    case CommitNothing(t) => DoCommitNothing(s, t)
    case ExpireRedis(id) => DoExpireRedis(s, id)
    case SetCatalog(tool, sensitivity) => DoSetCatalog(s, tool, sensitivity)
    case Propose(t, tool, payload) => DoPropose(cfg, s, t, tool, payload)
    case CallDirect(t) => DoCallDirect(s, t)
    case CreateApproval(t, id) => DoCreateApproval(s, t, id)
  }

  /** The state after a whole run of steps, if each of them could be taken. */
  function RunFrom(cfg: Config, start: State, steps: seq<Step>): Option<State> {
    if |steps| == 0 then Some(start)
    else
      match RunFrom(cfg, start, steps[..|steps| - 1])
      case Some(s) => Apply(cfg, s, steps[|steps| - 1])
      case None => None
  }

  function Run(cfg: Config, steps: seq<Step>): Option<State> {
    RunFrom(cfg, Initial(cfg), steps)
  }

  // ---- Reading the trace ----

  predicate Occurs(e: Event, trace: Log) {
    trace.Then? && (trace.last == e || Occurs(e, trace.before))
  }

  /** The trace as it was at some earlier moment, or as it is now. */
  predicate Earlier(past: Log, trace: Log) {
    past == trace || (trace.Then? && Earlier(past, trace.before))
  }

  function OpsOf(trace: Log, id: ApprovalId): seq<Op> {
    match trace
    case Empty => []
    case Then(before, e) => if e.Committed? && e.id == id then OpsOf(before, id) + [e.op] else OpsOf(before, id)
  }

  function AuditOf(trace: Log, id: ApprovalId): seq<AuditRecord> {
    match trace
    case Empty => []
    case Then(before, e) => if e.Committed? && e.id == id then AuditOf(before, id) + [e.record] else AuditOf(before, id)
  }

  function CatalogAt(seed: Catalog, trace: Log): Catalog {
    match trace
    case Empty => seed
    case Then(before, e) =>
      if e.CatalogChanged? then CatalogAt(seed, before)[e.tool := e.sensitivity] else CatalogAt(seed, before)
  }

  /** How many requests entered the tool call of an approval. */
  function Entries(trace: Log, id: ApprovalId): nat {
    match trace
    case Empty => 0
    case Then(before, e) => if e.Entered? && e.id == id then Entries(before, id) + 1 else Entries(before, id)
  }

  function TotalEntries(trace: Log): nat {
    match trace
    case Empty => 0
    case Then(before, e) => if e.Entered? then TotalEntries(before) + 1 else TotalEntries(before)
  }
}
