/** Runs of the approval protocol, put together step by step: an approval that a person has
    approved, a review from its beginning to its commit, an execution with the row it has
    read. Pieces for the runs that show what does not hold; each says in full what state it
    leads to, so that the next can begin there. */
module ProtocolRuns {
  import opened Domain
  import opened Policy
  import opened ApprovalModel
  import opened Protocol
  import opened ProtocolInvariant

  /** `s` is reached from `start` by `steps`. */
  predicate At(cfg: Config, start: State, steps: seq<Step>, s: State) {
    RunFrom(cfg, start, steps) == Some(s)
  }

  lemma Then1(cfg: Config, start: State, steps: seq<Step>, s: State, step: Step)
    requires At(cfg, start, steps, s) && Apply(cfg, s, step).Some?
    ensures At(cfg, start, steps + [step], Apply(cfg, s, step).value)
  {
    assert (steps + [step])[..|steps + [step]| - 1] == steps;
  }

  lemma {:induction false} RunOn(cfg: Config, start: State, steps: seq<Step>, s: State, more: seq<Step>, s': State)
    requires At(cfg, start, steps, s) && At(cfg, s, more, s')
    ensures At(cfg, start, steps + more, s')
    decreases |more|
  {
    if |more| == 0 {
      assert steps + more == steps;
    } else {
      var front, last := more[..|more| - 1], more[|more| - 1];
      var s1 := RunFrom(cfg, s, front).value;
      RunOn(cfg, start, steps, s, front, s1);
      Then1(cfg, start, steps + front, s1, last);
      assert steps + more == steps + front + [last];
    }
  }

  // ---- An approval that a person has approved ----

  /** The system asks for approval before it runs this. */
  predicate AsksFor(cfg: Config, tool: string, payload: Payload) {
    Decide(cfg.registry, cfg.seed, tool, payload).action == RequestApproval
  }

  const REVIEWER := "reviewer"

  function ApprovedRow(tool: string, payload: Payload): Row {
    Row(tool, payload, None, ApprovalStatus.Approved, Some(REVIEWER), Some(ToolCallStatus.WaitingForApproval))
  }

  /** Approval 0 is approved, and no later request has begun. */
  predicate Ready(cfg: Config, s: State, tool: string, payload: Payload) {
    && tool in cfg.registry && cfg.registry[tool].accepts(payload)
    && 0 in s.rows && s.rows[0] == ApprovedRow(tool, payload)
    && 0 !in s.rowLock && 0 !in s.redis
    && 2 !in s.txs && 3 !in s.txs && 4 !in s.txs && Entries(s.trace, 0) == 0
  }

  lemma Proposing(cfg: Config, tool: string, payload: Payload) returns (s: State)
    requires AsksFor(cfg, tool, payload)
    ensures At(cfg, Initial(cfg), [Propose(0, tool, payload)], s) && s.txs == map[0 := Tx(0, Call(tool, payload), MustAsk)]
    ensures s.rows == map[] && s.rowLock == map[] && s.redis == map[]
    ensures Entries(s.trace, 0) == 0 && OpsOf(s.trace, 0) == []
  {
    var s0 := Initial(cfg);
    Then1(cfg, s0, [], s0, Propose(0, tool, payload));
    s := DoPropose(cfg, s0, 0, tool, payload).value;
    assert [] + [Propose(0, tool, payload)] == [Propose(0, tool, payload)];
  }

  lemma Creating(cfg: Config, tool: string, payload: Payload) returns (steps: seq<Step>, s: State)
    requires AsksFor(cfg, tool, payload)
    ensures At(cfg, Initial(cfg), steps, s) && 1 !in s.txs && 2 !in s.txs && 3 !in s.txs && 4 !in s.txs
    ensures s.rows == map[0 := Created(Create(AGENT, tool, payload))] && s.rowLock == map[] && s.redis == map[]
    ensures Entries(s.trace, 0) == 0 && OpsOf(s.trace, 0) == [Create(AGENT, tool, payload)] && s.txs.Keys == {0}
  {
    var s1 := Proposing(cfg, tool, payload);
    Then1(cfg, Initial(cfg), [Propose(0, tool, payload)], s1, CreateApproval(0, 0));
    steps, s := [Propose(0, tool, payload)] + [CreateApproval(0, 0)], DoCreateApproval(s1, 0, 0).value;
  }

  /** A review from its beginning to its commit. */
  lemma Reviewing(cfg: Config, start: State, before: seq<Step>, s0: State, t: TxId, op: Op)
    returns (steps: seq<Step>, s: State)
    requires At(cfg, start, before, s0) && t !in s0.txs && 0 in s0.rows && 0 !in s0.rowLock
    requires (op.Approve? || op.Reject?) && Allowed(s0.rows[0], op)
    ensures At(cfg, start, steps, s)
    ensures s.rows == s0.rows[0 := Written(s0.rows[0], After(s0.rows[0], op), op)]
    ensures s.rowLock == s0.rowLock && s.redis == s0.redis && s.catalog == s0.catalog
    ensures s.trace == Then(s0.trace, Committed(t, 0, op, RecordFor(s0.rows[0], op)))
    ensures forall u | u != t :: (u in s.txs <==> u in s0.txs) && (u in s0.txs ==> s.txs[u] == s0.txs[u])
  {
    steps, s := before, s0;
    Then1(cfg, start, steps, s, Begin(t, 0, Review(op)));
    steps, s := steps + [Begin(t, 0, Review(op))], DoBegin(s, t, 0, Review(op)).value;
    Then1(cfg, start, steps, s, LockForReview(t));
    steps, s := steps + [LockForReview(t)], DoLockForReview(s, t).value;
    Then1(cfg, start, steps, s, Commit(t));
    steps, s := steps + [Commit(t)], DoCommit(s, t).value;
    assert s.rowLock == s0.rowLock;
  }

  lemma Approving(cfg: Config, tool: string, payload: Payload) returns (steps: seq<Step>, s: State)
    requires AsksFor(cfg, tool, payload)
    ensures At(cfg, Initial(cfg), steps, s) && Ready(cfg, s, tool, payload)
  {
    var steps1, s1 := Creating(cfg, tool, payload);
    steps, s := Reviewing(cfg, Initial(cfg), steps1, s1, 1, Approve(REVIEWER, None));
  }

  // ---- Executions ----

  /** Request t waits to execute with the copy `row` it read without a lock. */
  predicate WaitsWith(s: State, t: TxId, row: Row) {
    t in s.txs && s.txs[t] == Tx(0, Execute, Glanced(row))
  }

  lemma Reading(cfg: Config, start: State, before: seq<Step>, s0: State, t: TxId) returns (steps: seq<Step>, s: State)
    requires At(cfg, start, before, s0) && t !in s0.txs && 0 in s0.rows && CanExecute(s0.rows[0].status)
    ensures At(cfg, start, steps, s) && WaitsWith(s, t, s0.rows[0])
    ensures s == s0.(txs := s0.txs[t := Tx(0, Execute, Glanced(s0.rows[0]))])
  {
    steps, s := before, s0;
    Then1(cfg, start, steps, s, Begin(t, 0, Execute));
    steps, s := steps + [Begin(t, 0, Execute)], DoBegin(s, t, 0, Execute).value;
    Then1(cfg, start, steps, s, ReadUnlocked(t));
    steps, s := steps + [ReadUnlocked(t)], DoReadUnlocked(s, t).value;
  }

  function HandlerCalled(t: TxId, row: Row): Event {
    HandlerCall(t, 0, row)
  }

  /** A waiting request takes both locks: with the row it has read, unless the locked read
      returns another. */
  lemma Locking(cfg: Config, start: State, before: seq<Step>, s0: State, t: TxId, row: Row)
    returns (steps: seq<Step>, s: State)
    requires At(cfg, start, before, s0) && WaitsWith(s0, t, row) && Executable(cfg, row)
    requires 0 in s0.rows && 0 !in s0.rowLock && 0 !in s0.redis && (cfg.rereads ==> s0.rows[0] == row)
    ensures At(cfg, start, steps, s)
    ensures s == s0.(redis := s0.redis[0 := t], rowLock := s0.rowLock[0 := t], txs := s0.txs[t := Tx(0, Execute, HasRow(row))])
  {
    steps, s := before, s0;
    Then1(cfg, start, steps, s, AcquireRedis(t));
    steps, s := steps + [AcquireRedis(t)], DoAcquireRedis(s, t).value;
    Then1(cfg, start, steps, s, LockForExecution(t));
    steps, s := steps + [LockForExecution(t)], DoLockForExecution(cfg, s, t).value;
  }

  /** It locks and enters. */
  lemma Entering(cfg: Config, start: State, before: seq<Step>, s0: State, t: TxId, row: Row)
    returns (steps: seq<Step>, s: State)
    requires At(cfg, start, before, s0) && WaitsWith(s0, t, row) && Executable(cfg, row)
    requires 0 in s0.rows && 0 !in s0.rowLock && 0 !in s0.redis && (cfg.rereads ==> s0.rows[0] == row)
    ensures At(cfg, start, steps, s)
    ensures s.rows == s0.rows && s.redis == s0.redis[0 := t] && s.rowLock == s0.rowLock[0 := t] && s.catalog == s0.catalog
    ensures s.txs == s0.txs[t := Tx(0, Execute, InCall(row, 0))]
    ensures s.trace == Then(s0.trace, Entered(t, 0, FinalPayload(row)))
  {
    steps, s := Locking(cfg, start, before, s0, t, row);
    Then1(cfg, start, steps, s, Enter(t));
    steps, s := steps + [Enter(t)], DoEnter(s, t).value;
  }

  /** And calls the handler. */
  lemma Calling(cfg: Config, start: State, before: seq<Step>, s0: State, t: TxId, row: Row)
    returns (steps: seq<Step>, s: State)
    requires At(cfg, start, before, s0) && WaitsWith(s0, t, row) && Executable(cfg, row)
    requires cfg.registry[row.toolName].accepts(FinalPayload(row))
    requires 0 in s0.rows && 0 !in s0.rowLock && 0 !in s0.redis && (cfg.rereads ==> s0.rows[0] == row)
    ensures At(cfg, start, steps, s)
    ensures s.rows == s0.rows && s.redis == s0.redis[0 := t] && s.rowLock == s0.rowLock[0 := t] && s.catalog == s0.catalog
    ensures s.txs == s0.txs[t := Tx(0, Execute, InCall(row, 1))]
    ensures s.trace == Then(Then(s0.trace, Entered(t, 0, FinalPayload(row))), HandlerCalled(t, row))
  {
    steps, s := Entering(cfg, start, before, s0, t, row);
    Then1(cfg, start, steps, s, CallHandler(t));
    steps, s := steps + [CallHandler(t)], DoCallHandler(cfg, s, t).value;
  }

  /** It succeeds or fails, gives the Redis lock back and commits. */
  lemma Finishing(cfg: Config, start: State, before: seq<Step>, s0: State, t: TxId, row: Row, calls: nat, ok: bool)
    returns (steps: seq<Step>, s: State)
    requires At(cfg, start, before, s0) && CanExecute(row.status) && 0 in s0.rows && (ok ==> calls > 0)
    requires t in s0.txs && s0.txs[t] == Tx(0, Execute, InCall(row, calls)) && 0 in s0.redis && s0.redis[0] == t
    ensures var op := Finish(EXECUTOR, ok);
            && At(cfg, start, steps, s)
            && s.rows == s0.rows[0 := Written(s0.rows[0], After(row, op), op)]
            && s.trace == Then(s0.trace, Committed(t, 0, op, RecordFor(row, op)))
    ensures s.rowLock == s0.rowLock - {0} && s.redis == s0.redis - {0}
    ensures forall u | u != t :: (u in s.txs <==> u in s0.txs) && (u in s0.txs ==> s.txs[u] == s0.txs[u])
  {
    steps, s := Leaving(cfg, start, before, s0, t, row, calls, ok);
    Then1(cfg, start, steps, s, Commit(t));
    steps, s := steps + [Commit(t)], DoCommit(s, t).value;
  }

  /** It writes and gives the Redis lock back. */
  lemma Leaving(cfg: Config, start: State, before: seq<Step>, s0: State, t: TxId, row: Row, calls: nat, ok: bool)
    returns (steps: seq<Step>, s: State)
    requires At(cfg, start, before, s0) && CanExecute(row.status) && (ok ==> calls > 0)
    requires t in s0.txs && s0.txs[t] == Tx(0, Execute, InCall(row, calls)) && 0 in s0.redis && s0.redis[0] == t
    ensures At(cfg, start, steps, s)
    ensures s == s0.(txs := s0.txs[t := Tx(0, Execute, Flushed(row, Finish(EXECUTOR, ok), false))], redis := s0.redis - {0})
  {
    steps, s := before, s0;
    Then1(cfg, start, steps, s, Leave(t, ok));
    steps, s := steps + [Leave(t, ok)], DoLeave(s, t, ok).value;
    Then1(cfg, start, steps, s, ReleaseRedis(t));
    steps, s := steps + [ReleaseRedis(t)], DoReleaseRedis(s, t).value;
  }
}
