/** What every step of the approval protocol keeps, whether or not the locked read returns
    the committed row: who holds which row lock and what the holders have read and done, and
    that the trace explains the catalog and every row. One lemma for each kind of step, and
    their sum over all runs. The Redis lock does not appear: nothing here depends on it. */
module ProtocolInvariant {
  import opened Domain
  import opened Policy
  import opened ApprovalModel
  import opened Protocol

  predicate Locked(phase: Phase) {
    phase.HasRow? || phase.InCall? || phase.Flushed? || phase.Aborting?
  }

  function HandlerCall(t: TxId, id: ApprovalId, row: Row): Event {
    ApprovedHandlerCall(t, id, row.toolName, FinalPayload(row))
  }

  // ---- What the trace says of rows and events ----

  /** A row as the committed operations leave it: proposal and edit are what they say, it
      agrees with its tool call, and it is executable only when a person spoke last. */
  predicate RowFrom(row: Row, ops: seq<Op>) {
    && ops != [] && ops[0].Create? && row.toolName == ops[0].tool
    && row.proposed == Proposal(ops) && row.edited == LastEdit(ops)
    && Paired(row) && (CanExecute(row.status) ==> ops[|ops| - 1].Approve?)
  }

  /** The row was the committed one at some moment up to now. */
  predicate SnapshotOf(trace: Log, id: ApprovalId, row: Row) {
    RowFrom(row, OpsOf(trace, id)) || (trace.Then? && SnapshotOf(trace.before, id, row))
  }

  /** A person's approval or edit was the last word on a proposal of this tool, and this was
      then the payload. */
  predicate Stands(ops: seq<Op>, tool: string, payload: Payload) {
    && ops != [] && ops[0].Create? && ops[0].tool == tool
    && ops[|ops| - 1].Approve? && payload == LastEditOrProposal(ops)
  }

  predicate Stood(trace: Log, id: ApprovalId, tool: string, payload: Payload) {
    Stands(OpsOf(trace, id), tool, payload) || (trace.Then? && Stood(trace.before, id, tool, payload))
  }

  ghost predicate HandledBy(trace: Log, t: TxId, id: ApprovalId) {
    exists tool, payload :: Occurs(ApprovedHandlerCall(t, id, tool, payload), trace)
  }

  ghost predicate EnteredBy(trace: Log, t: TxId, id: ApprovalId) {
    exists payload :: Occurs(Entered(t, id, payload), trace)
  }

  /** What an event may only be recorded after. Everything is read off the trace itself. */
  ghost predicate EventOk(cfg: Config, before: Log, e: Event) {
    match e
    case PolicyDecided(_, tool, payload, action) =>
      action == Decide(cfg.registry, CatalogAt(cfg.seed, before), tool, payload).action
    case DirectHandlerCall(t, tool, payload) =>
      Occurs(PolicyDecided(t, tool, payload, Allow), before)
    case ApprovedHandlerCall(t, id, tool, payload) =>
      && Occurs(Entered(t, id, payload), before) && Stood(before, id, tool, payload)
      && tool in cfg.registry && cfg.registry[tool].accepts(payload)
    case Committed(t, id, op, record) =>
      if op.Create? then
        && OpsOf(before, id) == []
        && Occurs(PolicyDecided(t, op.tool, op.payload, RequestApproval), before)
        && record == CreationRecord(op)
      else
        && OpsOf(before, id) != []
        && (op.Approve? ==> record.actorType == Human && (record.event == ApprovedEvent || record.event == EditedEvent))
        && (op.Reject? ==> record.actorType == Human && record.event == RejectedEvent)
        && (op.Finish? ==> EnteredBy(before, t, id))
        && (op.Finish? && op.ok ==> HandledBy(before, t, id))
    case _ => true
  }

  ghost predicate Sound(cfg: Config, trace: Log) {
    trace.Then? ==> Sound(cfg, trace.before) && EventOk(cfg, trace.before, trace.last)
  }

  lemma {:induction false} SnapshotStood(trace: Log, id: ApprovalId, row: Row)
    requires SnapshotOf(trace, id, row) && CanExecute(row.status)
    ensures Stood(trace, id, row.toolName, FinalPayload(row))
  {
    if RowFrom(row, OpsOf(trace, id)) {
      assert Stands(OpsOf(trace, id), row.toolName, FinalPayload(row));
    } else {
      SnapshotStood(trace.before, id, row);
    }
  }

  // ---- The invariant ----

  /** What a transaction has read and done. */
  predicate TxOk(s: State, t: TxId)
    requires t in s.txs
  {
    var tx := s.txs[t];
    && (tx.request.Review? ==> tx.request.op.Approve? || tx.request.op.Reject?)
    && (Locked(tx.phase) ==> tx.id in s.rows && tx.id in s.rowLock && s.rowLock[tx.id] == t)
    && match tx.phase
       case Waiting => !tx.request.Call?
       case Glanced(row) => CanExecute(row.status) && SnapshotOf(s.trace, tx.id, row)
       case HasRedis(row) => CanExecute(row.status) && SnapshotOf(s.trace, tx.id, row)
       case HasRow(row) => CanExecute(row.status) && SnapshotOf(s.trace, tx.id, row)
       case InCall(row, calls) =>
         && CanExecute(row.status) && SnapshotOf(s.trace, tx.id, row)
         && Occurs(Entered(t, tx.id, FinalPayload(row)), s.trace)
         && (calls > 0 ==> Occurs(HandlerCall(t, tx.id, row), s.trace))
       case Flushed(row, op, _) =>
         && Allowed(row, op) && Paired(row) && (op.Finish? || row == s.rows[tx.id])
         && (op.Finish? ==> Occurs(Entered(t, tx.id, FinalPayload(row)), s.trace))
         && (op.Finish? && op.ok ==> Occurs(HandlerCall(t, tx.id, row), s.trace))
       case MayCall =>
         tx.request.Call? && Occurs(PolicyDecided(t, tx.request.tool, tx.request.payload, Allow), s.trace)
       case MustAsk =>
         tx.request.Call? && Occurs(PolicyDecided(t, tx.request.tool, tx.request.payload, RequestApproval), s.trace)
       case _ => true
  }

  ghost predicate TxsOk(s: State) {
    forall t | t in s.txs :: TxOk(s, t)
  }

  ghost predicate LocksHeld(s: State) {
    forall id | id in s.rowLock ::
      s.rowLock[id] in s.txs && s.txs[s.rowLock[id]].id == id && Locked(s.txs[s.rowLock[id]].phase)
  }

  /** Who holds which row lock, and what the holders have read. */
  ghost predicate Discipline(s: State) {
    TxsOk(s) && LocksHeld(s)
  }

  ghost predicate RowsOk(s: State) {
    forall id: ApprovalId ::
      if id in s.rows then RowFrom(s.rows[id], OpsOf(s.trace, id)) else OpsOf(s.trace, id) == []
  }

  /** The trace explains the catalog and every row. */
  ghost predicate Books(cfg: Config, s: State) {
    Sound(cfg, s.trace) && s.catalog == CatalogAt(cfg.seed, s.trace) && RowsOk(s)
  }

  ghost predicate Inv(cfg: Config, s: State) {
    Discipline(s) && Books(cfg, s)
  }

  // ---- The lock discipline, step by step ----

  /** The trace only grows. */
  ghost predicate Grown(s: State, s': State) {
    s'.trace == s.trace || (s'.trace.Then? && s'.trace.before == s.trace)
  }

  /** What one transaction does leaves the others as they were. */
  lemma KeepOthers(s: State, s': State, t: TxId)
    requires TxsOk(s) && Grown(s, s')
    requires t in s'.txs
    requires forall u | u in s'.txs && u != t :: u in s.txs && s'.txs[u] == s.txs[u]
    requires forall u | u in s.txs && u != t && Locked(s.txs[u].phase) && s.txs[u].id in s.rows ::
               && s.txs[u].id in s'.rows && s'.rows[s.txs[u].id] == s.rows[s.txs[u].id]
               && s.txs[u].id in s'.rowLock && s'.rowLock[s.txs[u].id] == u
    requires TxOk(s', t)
    ensures TxsOk(s')
  {
    forall u | u in s'.txs
      ensures TxOk(s', u)
    {
      if u != t {
        assert TxOk(s, u);
      }
    }
  }

  /** A step that only moves one transaction on and perhaps writes an event. */
  lemma MoveOn(s: State, s': State, t: TxId)
    requires Discipline(s) && t in s.txs && Grown(s, s')
    requires s'.rows == s.rows && s'.rowLock == s.rowLock
    requires t in s'.txs && s'.txs == s.txs[t := s.txs[t].(phase := s'.txs[t].phase)]
    requires TxOk(s', t)
    requires Locked(s'.txs[t].phase) == Locked(s.txs[t].phase)
    ensures Discipline(s')
  {
    KeepOthers(s, s', t);
  }

  /** A step of nobody's. */
  lemma NobodyMoves(s: State, s': State)
    requires Discipline(s) && Grown(s, s') && s'.txs == s.txs && s'.rows == s.rows && s'.rowLock == s.rowLock
    ensures Discipline(s')
  {
    forall t | t in s'.txs
      ensures TxOk(s', t)
    {
      assert TxOk(s, t);
    }
  }

  /** A new transaction, with nothing locked. */
  lemma NewTx(s: State, s': State, t: TxId)
    requires Discipline(s) && t !in s.txs && Grown(s, s')
    requires s'.rows == s.rows && s'.rowLock == s.rowLock
    requires t in s'.txs && s'.txs == s.txs[t := s'.txs[t]]
    requires TxOk(s', t) && !Locked(s'.txs[t].phase)
    ensures Discipline(s')
  {
    KeepOthers(s, s', t);
  }

  /** A transaction takes the lock of a free row. */
  lemma TakeLock(s: State, s': State, t: TxId)
    requires Discipline(s) && t in s.txs && s.txs[t].id !in s.rowLock
    requires s'.rows == s.rows && s'.rowLock == s.rowLock[s.txs[t].id := t] && s'.trace == s.trace
    requires t in s'.txs && s'.txs == s.txs[t := s.txs[t].(phase := s'.txs[t].phase)]
    requires TxOk(s', t) && Locked(s'.txs[t].phase)
    ensures Discipline(s')
  {
    KeepOthers(s, s', t);
  }

  /** Ending a transaction frees its row; nobody else relied on that row. */
  lemma ReleaseRow(s: State, s': State, t: TxId)
    requires Discipline(s) && t in s.txs && Locked(s.txs[t].phase) && Grown(s, s')
    requires s'.rowLock == s.rowLock - {s.txs[t].id}
    requires s'.txs == s.txs[t := s.txs[t].(phase := Done)]
    requires forall id | id in s.rows && id != s.txs[t].id :: id in s'.rows && s'.rows[id] == s.rows[id]
    ensures Discipline(s')
  {
    assert TxOk(s, t);
    KeepOthers(s, s', t);
  }

  // ---- The books ----

  lemma QuietBooks(cfg: Config, s: State, s': State)
    requires Books(cfg, s)
    requires s'.rows == s.rows && s'.trace == s.trace && s'.catalog == s.catalog
    ensures Books(cfg, s')
  {
  }

  /** An event that commits nothing. */
  lemma LogBooks(cfg: Config, s: State, s': State, e: Event)
    requires Books(cfg, s) && EventOk(cfg, s.trace, e) && !e.Committed?
    requires s'.rows == s.rows && s'.trace == Then(s.trace, e)
    requires s'.catalog == if e.CatalogChanged? then s.catalog[e.tool := e.sensitivity] else s.catalog
    ensures Books(cfg, s')
  {
  }

  lemma CommitBooks(cfg: Config, s: State, s': State, e: Event, row: Row)
    requires Books(cfg, s) && EventOk(cfg, s.trace, e) && e.Committed?
    requires s'.rows == s.rows[e.id := row] && s'.trace == Then(s.trace, e) && s'.catalog == s.catalog
    requires RowFrom(row, OpsOf(s.trace, e.id) + [e.op])
    ensures Books(cfg, s')
  {
  }

  /** A committed operation changes the row as it changes what the operations say of it, also
      where it was computed from an older copy. */
  lemma WrittenFrom(now: Row, ops: seq<Op>, row: Row, op: Op)
    requires RowFrom(now, ops) && Paired(row) && Allowed(row, op) && (op.Finish? || row == now)
    ensures RowFrom(Written(now, After(row, op), op), ops + [op])
  {
    assert (ops + [op])[..|ops + [op]| - 1] == ops;
  }

  lemma CommitEventOk(cfg: Config, s: State, t: TxId)
    requires Inv(cfg, s) && t in s.txs && s.txs[t].phase.Flushed?
    ensures var id, row, op := s.txs[t].id, s.txs[t].phase.row, s.txs[t].phase.op;
            Allowed(row, op) && EventOk(cfg, s.trace, Committed(t, id, op, RecordFor(row, op)))
  {
    assert TxOk(s, t);
  }

  // ---- Every step keeps both ----

  lemma BeginKeeps(cfg: Config, s: State, t: TxId, id: ApprovalId, request: Request)
    requires Inv(cfg, s) && DoBegin(s, t, id, request).Some?
    ensures Inv(cfg, DoBegin(s, t, id, request).value)
  {
    NewTx(s, DoBegin(s, t, id, request).value, t);
    QuietBooks(cfg, s, DoBegin(s, t, id, request).value);
  }

  lemma ReadUnlockedKeeps(cfg: Config, s: State, t: TxId)
    requires Inv(cfg, s) && DoReadUnlocked(s, t).Some?
    ensures Inv(cfg, DoReadUnlocked(s, t).value)
  {
    var s' := DoReadUnlocked(s, t).value;
    MoveOn(s, s', t);
    QuietBooks(cfg, s, s');
  }

  lemma AcquireRedisKeeps(cfg: Config, s: State, t: TxId)
    requires Inv(cfg, s) && DoAcquireRedis(s, t).Some?
    ensures Inv(cfg, DoAcquireRedis(s, t).value)
  {
    assert TxOk(s, t);
    MoveOn(s, DoAcquireRedis(s, t).value, t);
    QuietBooks(cfg, s, DoAcquireRedis(s, t).value);
  }

  lemma GiveUpRedisKeeps(cfg: Config, s: State, t: TxId)
    requires Inv(cfg, s) && DoGiveUpRedis(s, t).Some?
    ensures Inv(cfg, DoGiveUpRedis(s, t).value)
  {
    MoveOn(s, DoGiveUpRedis(s, t).value, t);
    QuietBooks(cfg, s, DoGiveUpRedis(s, t).value);
  }

  lemma LockForReviewKeeps(cfg: Config, s: State, t: TxId)
    requires Inv(cfg, s) && DoLockForReview(s, t).Some?
    ensures Inv(cfg, DoLockForReview(s, t).value)
  {
    var s' := DoLockForReview(s, t).value;
    assert TxOk(s, t);
    if s'.txs[t].phase.Done? {
      MoveOn(s, s', t);
    } else {
      TakeLock(s, s', t);
    }
    QuietBooks(cfg, s, s');
  }

  lemma LockForExecutionKeeps(cfg: Config, s: State, t: TxId)
    requires Inv(cfg, s) && DoLockForExecution(cfg, s, t).Some?
    ensures Inv(cfg, DoLockForExecution(cfg, s, t).value)
  {
    assert TxOk(s, t);
    TakeLock(s, DoLockForExecution(cfg, s, t).value, t);
    QuietBooks(cfg, s, DoLockForExecution(cfg, s, t).value);
  }

  lemma EnterKeeps(cfg: Config, s: State, t: TxId)
    requires Inv(cfg, s) && DoEnter(s, t).Some?
    ensures Inv(cfg, DoEnter(s, t).value)
  {
    var s' := DoEnter(s, t).value;
    assert TxOk(s, t);
    MoveOn(s, s', t);
    LogBooks(cfg, s, s', Entered(t, s.txs[t].id, FinalPayload(s.txs[t].phase.row)));
  }

  lemma CallHandlerKeeps(cfg: Config, s: State, t: TxId)
    requires Inv(cfg, s) && DoCallHandler(cfg, s, t).Some?
    ensures Inv(cfg, DoCallHandler(cfg, s, t).value)
  {
    var s' := DoCallHandler(cfg, s, t).value;
    var id, row := s.txs[t].id, s.txs[t].phase.row;
    assert TxOk(s, t);
    SnapshotStood(s.trace, id, row);
    MoveOn(s, s', t);
    LogBooks(cfg, s, s', HandlerCall(t, id, row));
  }

  lemma {:induction false} SnapshotPaired(trace: Log, id: ApprovalId, row: Row)
    requires SnapshotOf(trace, id, row)
    ensures Paired(row)
  {
    if !RowFrom(row, OpsOf(trace, id)) {
      SnapshotPaired(trace.before, id, row);
    }
  }

  lemma LeaveKeeps(cfg: Config, s: State, t: TxId, ok: bool)
    requires Inv(cfg, s) && DoLeave(s, t, ok).Some?
    ensures Inv(cfg, DoLeave(s, t, ok).value)
  {
    assert TxOk(s, t);
    SnapshotPaired(s.trace, s.txs[t].id, s.txs[t].phase.row);
    MoveOn(s, DoLeave(s, t, ok).value, t);
    QuietBooks(cfg, s, DoLeave(s, t, ok).value);
  }

  lemma ReleaseRedisKeeps(cfg: Config, s: State, t: TxId)
    requires Inv(cfg, s) && DoReleaseRedis(s, t).Some?
    ensures Inv(cfg, DoReleaseRedis(s, t).value)
  {
    assert TxOk(s, t);
    MoveOn(s, DoReleaseRedis(s, t).value, t);
    QuietBooks(cfg, s, DoReleaseRedis(s, t).value);
  }

  lemma CommitKeeps(cfg: Config, s: State, t: TxId)
    requires Inv(cfg, s) && DoCommit(s, t).Some?
    ensures Inv(cfg, DoCommit(s, t).value)
  {
    var s' := DoCommit(s, t).value;
    var id, row, op := s.txs[t].id, s.txs[t].phase.row, s.txs[t].phase.op;
    assert TxOk(s, t);
    ReleaseRow(s, s', t);
    WrittenFrom(s.rows[id], OpsOf(s.trace, id), row, op);
    CommitEventOk(cfg, s, t);
    CommitBooks(cfg, s, s', Committed(t, id, op, RecordFor(row, op)), s'.rows[id]);
  }

  lemma CommitNothingKeeps(cfg: Config, s: State, t: TxId)
    requires Inv(cfg, s) && DoCommitNothing(s, t).Some?
    ensures Inv(cfg, DoCommitNothing(s, t).value)
  {
    ReleaseRow(s, DoCommitNothing(s, t).value, t);
    QuietBooks(cfg, s, DoCommitNothing(s, t).value);
  }

  lemma ProposeKeeps(cfg: Config, s: State, t: TxId, tool: string, payload: Payload)
    requires Inv(cfg, s) && DoPropose(cfg, s, t, tool, payload).Some?
    ensures Inv(cfg, DoPropose(cfg, s, t, tool, payload).value)
  {
    var s' := DoPropose(cfg, s, t, tool, payload).value;
    NewTx(s, s', t);
    LogBooks(cfg, s, s', s'.trace.last);
  }

  lemma CallDirectKeeps(cfg: Config, s: State, t: TxId)
    requires Inv(cfg, s) && DoCallDirect(s, t).Some?
    ensures Inv(cfg, DoCallDirect(s, t).value)
  {
    var s' := DoCallDirect(s, t).value;
    assert TxOk(s, t);
    MoveOn(s, s', t);
    LogBooks(cfg, s, s', s'.trace.last);
  }

  lemma CreateApprovalKeeps(cfg: Config, s: State, t: TxId, id: ApprovalId)
    requires Inv(cfg, s) && DoCreateApproval(s, t, id).Some?
    ensures Inv(cfg, DoCreateApproval(s, t, id).value)
  {
    var s' := DoCreateApproval(s, t, id).value;
    assert TxOk(s, t);
    CreateDiscipline(s, t, id);
    assert s'.trace.last.op.Create? && OpsOf(s.trace, id) == [];
    CreatedFrom(s'.trace.last.op);
    CommitBooks(cfg, s, s', s'.trace.last, Created(s'.trace.last.op));
  }

  lemma CreateDiscipline(s: State, t: TxId, id: ApprovalId)
    requires Discipline(s) && DoCreateApproval(s, t, id).Some?
    ensures Discipline(DoCreateApproval(s, t, id).value)
  {
    KeepOthers(s, DoCreateApproval(s, t, id).value, t);
  }

  lemma CreatedFrom(op: Op)
    requires op.Create?
    ensures RowFrom(Created(op), [] + [op])
  {
    assert LastEdit([op]) == LastEdit([op][..0]) == None;
  }

  /** Every step keeps the invariant. */
  lemma StepKeepsInv(cfg: Config, s: State, step: Step)
    requires Inv(cfg, s) && Apply(cfg, s, step).Some?
    ensures Inv(cfg, Apply(cfg, s, step).value)
  {
    match step
    case Begin(t, id, request) => BeginKeeps(cfg, s, t, id, request);
    case ReadUnlocked(t) => ReadUnlockedKeeps(cfg, s, t);
    case AcquireRedis(t) => AcquireRedisKeeps(cfg, s, t);
    case GiveUpRedis(t) => GiveUpRedisKeeps(cfg, s, t);
    case LockForReview(t) => LockForReviewKeeps(cfg, s, t);
    case LockForExecution(t) => LockForExecutionKeeps(cfg, s, t);
    case Enter(t) => EnterKeeps(cfg, s, t);
    case CallHandler(t) => CallHandlerKeeps(cfg, s, t);
    case Leave(t, ok) => LeaveKeeps(cfg, s, t, ok);
    case ReleaseRedis(t) => ReleaseRedisKeeps(cfg, s, t);
    case Commit(t) => CommitKeeps(cfg, s, t);
    case CommitNothing(t) => CommitNothingKeeps(cfg, s, t);
    case ExpireRedis(id) =>
      NobodyMoves(s, DoExpireRedis(s, id).value);
      QuietBooks(cfg, s, DoExpireRedis(s, id).value);
    case SetCatalog(tool, sensitivity) =>
      NobodyMoves(s, DoSetCatalog(s, tool, sensitivity).value);
      LogBooks(cfg, s, DoSetCatalog(s, tool, sensitivity).value, CatalogChanged(tool, sensitivity));
    case Propose(t, tool, payload) => ProposeKeeps(cfg, s, t, tool, payload);
    case CallDirect(t) => CallDirectKeeps(cfg, s, t);
    case CreateApproval(t, id) => CreateApprovalKeeps(cfg, s, t, id);
  }

  lemma {:induction false} RunFromKeepsInv(cfg: Config, start: State, steps: seq<Step>)
    requires Inv(cfg, start) && RunFrom(cfg, start, steps).Some?
    ensures Inv(cfg, RunFrom(cfg, start, steps).value)
  {
    if |steps| == 0 {
    } else {
      RunFromKeepsInv(cfg, start, steps[..|steps| - 1]);
      StepKeepsInv(cfg, RunFrom(cfg, start, steps[..|steps| - 1]).value, steps[|steps| - 1]);
    }
  }

  /** The invariant holds after every run. */
  lemma RunKeepsInv(cfg: Config, steps: seq<Step>)
    requires Run(cfg, steps).Some?
    ensures Inv(cfg, Run(cfg, steps).value)
  {
    RunFromKeepsInv(cfg, Initial(cfg), steps);
  }
}
