/** What every step of the approval protocol keeps besides when the locked read of an
    execution finds the committed row: whoever holds a row lock knows the row, committed
    operations form one history, and executions are counted by the rows. Again one lemma for
    each kind of step, on top of what ProtocolInvariant proves of it. */
module ProtocolFresh {
  import opened Domain
  import opened ApprovalModel
  import opened Protocol
  import opened ProtocolInvariant

  /** Between entering the tool call and committing its outcome. */
  predicate InEpisode(phase: Phase) {
    phase.InCall? || (phase.Flushed? && phase.op.Finish?)
  }

  predicate Ended(status: ApprovalStatus) {
    status.Executed? || status.Failed?
  }

  /** The episode in progress on an approval, if any: at most one, that of the lock holder. */
  predicate Busy(s: State, id: ApprovalId) {
    id in s.rowLock && s.rowLock[id] in s.txs && InEpisode(s.txs[s.rowLock[id]].phase)
  }

  // ---- The invariant ----

  /** A lock holder has read the row as it still is. */
  predicate Current(s: State, t: TxId)
    requires t in s.txs
  {
    var tx := s.txs[t];
    match tx.phase
    case HasRow(row) => tx.id in s.rows && row == s.rows[tx.id]
    case InCall(row, _) => tx.id in s.rows && row == s.rows[tx.id]
    case Flushed(row, _, _) => tx.id in s.rows && row == s.rows[tx.id]
    case _ => true
  }

  ghost predicate Fresh(s: State) {
    forall t | t in s.txs :: Current(s, t)
  }

  /** What an event says of the history of its approval. */
  predicate EventReplayed(before: Log, e: Event) {
    match e
    case Entered(_, id, payload) =>
      var row := Replay(OpsOf(before, id));
      row.Some? && CanExecute(row.value.status) && payload == FinalPayload(row.value)
    case ApprovedHandlerCall(_, id, tool, payload) =>
      var row := Replay(OpsOf(before, id));
      && row.Some? && CanExecute(row.value.status) && row.value.toolName == tool
      && payload == FinalPayload(row.value)
    case Committed(_, id, op, record) =>
      op.Create?
      || (var row := Replay(OpsOf(before, id));
          row.Some? && Allowed(row.value, op) && record == RecordFor(row.value, op))
    case _ => true
  }

  predicate Replayed(trace: Log) {
    trace.Then? ==> Replayed(trace.before) && EventReplayed(trace.before, trace.last)
  }

  ghost predicate RowsReplay(s: State) {
    forall id: ApprovalId | id in s.rows :: Replay(OpsOf(s.trace, id)) == Some(s.rows[id])
  }

  ghost predicate EntriesCounted(s: State) {
    forall id: ApprovalId ::
      Entries(s.trace, id)
      == (if id in s.rows && Ended(s.rows[id].status) then 1 else 0) + (if Busy(s, id) then 1 else 0)
  }

  ghost predicate Exact(s: State) {
    Fresh(s) && Replayed(s.trace) && RowsReplay(s) && EntriesCounted(s)
  }

  ghost predicate ExactInv(cfg: Config, s: State) {
    Inv(cfg, s) && Exact(s)
  }

  // ---- Locked reads ----

  /** The locked read of an execution finds the committed row: read afresh, or not changed since
      it was first read. */
  predicate SeesCommitted(cfg: Config, s: State, step: Step) {
    match step
    case LockForExecution(t) =>
      cfg.rereads
      || (t in s.txs && s.txs[t].phase.HasRedis? && s.txs[t].id in s.rows ==> s.txs[t].phase.row == s.rows[s.txs[t].id])
    case _ => true
  }

  predicate FreshFrom(cfg: Config, start: State, steps: seq<Step>) {
    |steps| == 0
    || (&& FreshFrom(cfg, start, steps[..|steps| - 1])
        && match RunFrom(cfg, start, steps[..|steps| - 1])
           case Some(s) => SeesCommitted(cfg, s, steps[|steps| - 1])
           case None => true)
  }

  /** Every locked read of the run does. */
  predicate FreshRun(cfg: Config, steps: seq<Step>) {
    FreshFrom(cfg, Initial(cfg), steps)
  }

  lemma {:induction false} RereadsFresh(cfg: Config, start: State, steps: seq<Step>)
    requires cfg.rereads
    ensures FreshFrom(cfg, start, steps)
  {
    if |steps| == 0 {
    } else {
      RereadsFresh(cfg, start, steps[..|steps| - 1]);
    }
  }

  // ---- Steps ----

  ghost predicate SameBusy(s: State, s': State) {
    forall id: ApprovalId :: Busy(s', id) <==> Busy(s, id)
  }

  /** One transaction moves on, and no row changes. */
  ghost predicate OnlyMoves(s: State, s': State, t: TxId) {
    && s'.rows == s.rows && Grown(s, s')
    && t in s'.txs && Current(s', t)
    && forall u | u in s'.txs && u != t :: u in s.txs && s'.txs[u] == s.txs[u]
  }

  lemma MovesFresh(s: State, s': State, t: TxId)
    requires Fresh(s) && OnlyMoves(s, s', t)
    ensures Fresh(s')
  {
    forall u | u in s'.txs
      ensures Current(s', u)
    {
      if u != t {
        assert Current(s, u);
      }
    }
  }

  /** A step without a word on any approval. */
  lemma QuietExact(s: State, s': State, t: TxId)
    requires Exact(s) && OnlyMoves(s, s', t) && SameBusy(s, s')
    requires s'.trace == s.trace || (s'.trace.Then? && !s'.trace.last.Entered? && !s'.trace.last.Committed?
                                     && EventReplayed(s.trace, s'.trace.last))
    ensures Exact(s')
  {
    MovesFresh(s, s', t);
  }

  /** Row locks stay as they are and only one transaction moves: who is busy can only change
      with it. */
  lemma BusyWith(s: State, s': State, t: TxId)
    requires LocksHeld(s) && s'.rowLock == s.rowLock
    requires t in s'.txs && forall u | u in s.txs && u != t :: u in s'.txs && s'.txs[u] == s.txs[u]
    requires t in s.txs ==> InEpisode(s'.txs[t].phase) == InEpisode(s.txs[t].phase)
    ensures SameBusy(s, s')
  {
  }

  lemma BusyWithLock(s: State, s': State, t: TxId, id: ApprovalId)
    requires LocksHeld(s) && id !in s.rowLock && s'.rowLock == s.rowLock[id := t]
    requires t in s.txs && t in s'.txs && forall u | u in s.txs && u != t :: u in s'.txs && s'.txs[u] == s.txs[u]
    requires !InEpisode(s'.txs[t].phase) && !Locked(s.txs[t].phase)
    ensures SameBusy(s, s')
  {
  }

  lemma MoveExact(s: State, s': State, t: TxId)
    requires Exact(s) && LocksHeld(s) && OnlyMoves(s, s', t) && s'.rowLock == s.rowLock
    requires forall u | u in s.txs :: u in s'.txs
    requires t in s.txs ==> InEpisode(s'.txs[t].phase) == InEpisode(s.txs[t].phase)
    requires s'.trace == s.trace || (s'.trace.Then? && !s'.trace.last.Entered? && !s'.trace.last.Committed?
                                     && EventReplayed(s.trace, s'.trace.last))
    ensures Exact(s')
  {
    BusyWith(s, s', t);
    QuietExact(s, s', t);
  }

  lemma LockForReviewExact(s: State, t: TxId)
    requires Exact(s) && Discipline(s) && DoLockForReview(s, t).Some?
    ensures Exact(DoLockForReview(s, t).value)
  {
    var s' := DoLockForReview(s, t).value;
    assert TxOk(s, t);
    if s'.txs[t].phase.Done? {
      MoveExact(s, s', t);
    } else {
      BusyWithLock(s, s', t, s.txs[t].id);
      QuietExact(s, s', t);
    }
  }

  lemma LockForExecutionExact(cfg: Config, s: State, t: TxId)
    requires Exact(s) && Discipline(s) && SeesCommitted(cfg, s, LockForExecution(t)) && DoLockForExecution(cfg, s, t).Some?
    ensures Exact(DoLockForExecution(cfg, s, t).value)
  {
    var s' := DoLockForExecution(cfg, s, t).value;
    BusyWithLock(s, s', t, s.txs[t].id);
    QuietExact(s, s', t);
  }

  lemma EnterExact(s: State, t: TxId)
    requires Exact(s) && Discipline(s) && DoEnter(s, t).Some?
    ensures Exact(DoEnter(s, t).value)
  {
    var s' := DoEnter(s, t).value;
    var id := s.txs[t].id;
    assert TxOk(s, t) && Current(s, t);
    MovesFresh(s, s', t);
    BusyAfterEntry(s, s', t);
    EntryCounts(s, s', Entered(t, id, FinalPayload(s.txs[t].phase.row)));
  }

  lemma BusyAfterEntry(s: State, s': State, t: TxId)
    requires Discipline(s) && t in s.txs && s.txs[t].phase.HasRow? && s'.rowLock == s.rowLock
    requires t in s'.txs && s'.txs == s.txs[t := s.txs[t].(phase := s'.txs[t].phase)] && InEpisode(s'.txs[t].phase)
    ensures !Busy(s, s.txs[t].id)
    ensures forall id: ApprovalId :: Busy(s', id) <==> Busy(s, id) || id == s.txs[t].id
  {
    assert TxOk(s, t);
  }

  lemma EntryCounts(s: State, s': State, e: Event)
    requires RowsReplay(s) && EntriesCounted(s) && e.Entered? && s'.rows == s.rows && s'.trace == Then(s.trace, e)
    requires !Busy(s, e.id) && forall id: ApprovalId :: Busy(s', id) <==> Busy(s, id) || id == e.id
    ensures RowsReplay(s') && EntriesCounted(s')
  {
  }

  lemma CallHandlerExact(cfg: Config, s: State, t: TxId)
    requires Exact(s) && Discipline(s) && DoCallHandler(cfg, s, t).Some?
    ensures Exact(DoCallHandler(cfg, s, t).value)
  {
    assert TxOk(s, t) && Current(s, t);
    MoveExact(s, DoCallHandler(cfg, s, t).value, t);
  }

  lemma LeaveExact(s: State, t: TxId, ok: bool)
    requires Exact(s) && Discipline(s) && DoLeave(s, t, ok).Some?
    ensures Exact(DoLeave(s, t, ok).value)
  {
    assert Current(s, t);
    MoveExact(s, DoLeave(s, t, ok).value, t);
  }

  lemma ReleaseRedisExact(s: State, t: TxId)
    requires Exact(s) && Discipline(s) && DoReleaseRedis(s, t).Some?
    ensures Exact(DoReleaseRedis(s, t).value)
  {
    assert Current(s, t);
    MoveExact(s, DoReleaseRedis(s, t).value, t);
  }

  /** Ending a transaction ends what it was busy with. */
  lemma BusyAfterRelease(s: State, s': State, t: TxId)
    requires Discipline(s) && t in s.txs && Locked(s.txs[t].phase)
    requires s'.rowLock == s.rowLock - {s.txs[t].id} && s'.txs == s.txs[t := s.txs[t].(phase := Done)]
    ensures forall id: ApprovalId :: Busy(s', id) <==> Busy(s, id) && id != s.txs[t].id
    ensures Busy(s, s.txs[t].id) <==> InEpisode(s.txs[t].phase)
  {
    assert TxOk(s, t);
  }

  lemma {:induction false} ReplayMore(ops: seq<Op>, op: Op)
    requires Replay(ops).Some? && Allowed(Replay(ops).value, op)
    ensures Replay(ops + [op]) == Some(After(Replay(ops).value, op))
  {
    assert (ops + [op])[..|ops + [op]| - 1] == ops;
  }

  /** Computed from the row as it is, what is written is the row after the operation. */
  lemma WrittenFresh(row: Row, op: Op)
    requires Allowed(row, op)
    ensures Written(row, After(row, op), op) == After(row, op)
  {
  }

  lemma CommitFresh(s: State, s': State, t: TxId)
    requires Discipline(s) && Fresh(s) && t in s.txs && Locked(s.txs[t].phase)
    requires s'.txs == s.txs[t := s.txs[t].(phase := Done)]
    requires forall id | id in s.rows && id != s.txs[t].id :: id in s'.rows && s'.rows[id] == s.rows[id]
    ensures Fresh(s')
  {
    forall u | u in s'.txs
      ensures Current(s', u)
    {
      if u != t {
        assert TxOk(s, u) && TxOk(s, t) && Current(s, u);
      }
    }
  }

  lemma CommitCounts(s: State, s': State, e: Event, row: Row)
    requires RowsReplay(s) && EntriesCounted(s) && e.Committed?
    requires s'.rows == s.rows[e.id := row] && s'.trace == Then(s.trace, e)
    requires Replay(OpsOf(s.trace, e.id) + [e.op]) == Some(row)
    requires forall id: ApprovalId :: Busy(s', id) <==> Busy(s, id) && id != e.id
    requires (if e.id in s.rows && Ended(s.rows[e.id].status) then 1 else 0) + (if Busy(s, e.id) then 1 else 0)
             == if Ended(row.status) then 1 else 0
    ensures RowsReplay(s') && EntriesCounted(s')
  {
  }

  lemma CommitExact(s: State, t: TxId)
    requires Exact(s) && Discipline(s) && DoCommit(s, t).Some?
    ensures Exact(DoCommit(s, t).value)
  {
    var s' := DoCommit(s, t).value;
    var id, row, op := s.txs[t].id, s.txs[t].phase.row, s.txs[t].phase.op;
    assert TxOk(s, t) && Current(s, t);
    CommitReplays(s, id, row, op);
    CommitFresh(s, s', t);
    BusyAfterRelease(s, s', t);
    CommitEnds(s, t);
    CommitCounts(s, s', Committed(t, id, op, RecordFor(row, op)), After(row, op));
  }

  /** A commit ends the episode, if there was one, and the row says so. */
  lemma CommitEnds(s: State, t: TxId)
    requires Discipline(s) && t in s.txs && s.txs[t].phase.Flushed? && TxOk(s, t) && Current(s, t)
    ensures var id, row, op := s.txs[t].id, s.txs[t].phase.row, s.txs[t].phase.op;
            (if id in s.rows && Ended(s.rows[id].status) then 1 else 0) + (if Busy(s, id) then 1 else 0)
            == if Ended(After(row, op).status) then 1 else 0
  {
  }

  lemma CommitReplays(s: State, id: ApprovalId, row: Row, op: Op)
    requires RowsReplay(s) && id in s.rows && row == s.rows[id] && Allowed(row, op)
    ensures Replay(OpsOf(s.trace, id)) == Some(row)
    ensures Replay(OpsOf(s.trace, id) + [op]) == Some(After(row, op))
    ensures Written(row, After(row, op), op) == After(row, op)
  {
    ReplayMore(OpsOf(s.trace, id), op);
    WrittenFresh(row, op);
  }

  lemma CommitNothingExact(s: State, t: TxId)
    requires Exact(s) && Discipline(s) && DoCommitNothing(s, t).Some?
    ensures Exact(DoCommitNothing(s, t).value)
  {
    var s' := DoCommitNothing(s, t).value;
    BusyAfterRelease(s, s', t);
    MovesFresh(s, s', t);
  }

  lemma CreateExact(s: State, t: TxId, id: ApprovalId)
    requires Exact(s) && Discipline(s) && OpsOf(s.trace, id) == [] && DoCreateApproval(s, t, id).Some?
    ensures Exact(DoCreateApproval(s, t, id).value)
  {
    var s' := DoCreateApproval(s, t, id).value;
    var op := s'.trace.last.op;
    assert id in s.rowLock ==> TxOk(s, s.rowLock[id]);
    BusyWith(s, s', t);
    CreateFresh(s, s', t, id);
    assert OpsOf(s.trace, id) + [op] == [op];
    CommitCounts(s, s', s'.trace.last, Created(op));
  }

  lemma CreateFresh(s: State, s': State, t: TxId, id: ApprovalId)
    requires Fresh(s) && id !in s.rows && t in s.txs
    requires id in s'.rows && s'.rows == s.rows[id := s'.rows[id]]
    requires s'.txs == s.txs[t := s.txs[t].(phase := Done)]
    ensures Fresh(s')
  {
    forall u | u in s'.txs
      ensures Current(s', u)
    {
      if u != t {
        assert Current(s, u);
      }
    }
  }

  lemma NoMoveExact(s: State, s': State)
    requires Exact(s) && s'.rows == s.rows && s'.txs == s.txs && s'.rowLock == s.rowLock
    requires s'.trace == s.trace || (s'.trace.Then? && s'.trace.before == s.trace && s'.trace.last.CatalogChanged?)
    ensures Exact(s')
  {
    assert forall t | t in s'.txs :: Current(s, t) ==> Current(s', t);
    assert SameBusy(s, s');
  }

  lemma BeginExact(s: State, t: TxId, id: ApprovalId, request: Request)
    requires Exact(s) && LocksHeld(s) && DoBegin(s, t, id, request).Some?
    ensures Exact(DoBegin(s, t, id, request).value)
  {
    MoveExact(s, DoBegin(s, t, id, request).value, t);
  }

  lemma ReadUnlockedExact(s: State, t: TxId)
    requires Exact(s) && LocksHeld(s) && DoReadUnlocked(s, t).Some?
    ensures Exact(DoReadUnlocked(s, t).value)
  {
    MoveExact(s, DoReadUnlocked(s, t).value, t);
  }

  lemma AcquireRedisExact(s: State, t: TxId)
    requires Exact(s) && LocksHeld(s) && DoAcquireRedis(s, t).Some?
    ensures Exact(DoAcquireRedis(s, t).value)
  {
    MoveExact(s, DoAcquireRedis(s, t).value, t);
  }

  lemma GiveUpRedisExact(s: State, t: TxId)
    requires Exact(s) && LocksHeld(s) && DoGiveUpRedis(s, t).Some?
    ensures Exact(DoGiveUpRedis(s, t).value)
  {
    MoveExact(s, DoGiveUpRedis(s, t).value, t);
  }

  lemma ProposeExact(cfg: Config, s: State, t: TxId, tool: string, payload: Payload)
    requires Exact(s) && LocksHeld(s) && DoPropose(cfg, s, t, tool, payload).Some?
    ensures Exact(DoPropose(cfg, s, t, tool, payload).value)
  {
    MoveExact(s, DoPropose(cfg, s, t, tool, payload).value, t);
  }

  lemma CallDirectExact(s: State, t: TxId)
    requires Exact(s) && LocksHeld(s) && DoCallDirect(s, t).Some?
    ensures Exact(DoCallDirect(s, t).value)
  {
    MoveExact(s, DoCallDirect(s, t).value, t);
  }

  /** Every step keeps this too, if its locked read finds the committed row. */
  lemma StepKeepsExact(cfg: Config, s: State, step: Step)
    requires ExactInv(cfg, s) && SeesCommitted(cfg, s, step) && Apply(cfg, s, step).Some?
    ensures Exact(Apply(cfg, s, step).value)
  {
    match step
    case Begin(t, id, request) => BeginExact(s, t, id, request);
    case ReadUnlocked(t) => ReadUnlockedExact(s, t);
    case AcquireRedis(t) => AcquireRedisExact(s, t);
    case GiveUpRedis(t) => GiveUpRedisExact(s, t);
    case LockForReview(t) => LockForReviewExact(s, t);
    case LockForExecution(t) => LockForExecutionExact(cfg, s, t);
    case Enter(t) => EnterExact(s, t);
    case CallHandler(t) => CallHandlerExact(cfg, s, t);
    case Leave(t, ok) => LeaveExact(s, t, ok);
    case ReleaseRedis(t) => ReleaseRedisExact(s, t);
    case Commit(t) => CommitExact(s, t);
    case CommitNothing(t) => CommitNothingExact(s, t);
    case ExpireRedis(id) => NoMoveExact(s, DoExpireRedis(s, id).value);
    case SetCatalog(tool, sensitivity) => NoMoveExact(s, DoSetCatalog(s, tool, sensitivity).value);
    case Propose(t, tool, payload) => ProposeExact(cfg, s, t, tool, payload);
    case CallDirect(t) => CallDirectExact(s, t);
    case CreateApproval(t, id) => CreateExact(s, t, id);
  }

  lemma {:induction false} RunFromKeepsExact(cfg: Config, start: State, steps: seq<Step>)
    requires FreshFrom(cfg, start, steps) && ExactInv(cfg, start) && RunFrom(cfg, start, steps).Some?
    ensures ExactInv(cfg, RunFrom(cfg, start, steps).value)
  {
    if |steps| == 0 {
    } else {
      var before := RunFrom(cfg, start, steps[..|steps| - 1]).value;
      RunFromKeepsExact(cfg, start, steps[..|steps| - 1]);
      StepKeepsInv(cfg, before, steps[|steps| - 1]);
      StepKeepsExact(cfg, before, steps[|steps| - 1]);
    }
  }

  lemma RunKeepsExact(cfg: Config, steps: seq<Step>)
    requires FreshRun(cfg, steps) && Run(cfg, steps).Some?
    ensures ExactInv(cfg, Run(cfg, steps).value)
  {
    RunFromKeepsExact(cfg, Initial(cfg), steps);
  }
}
