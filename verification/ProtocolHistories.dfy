/** What the approval protocol makes possible: every history happens, nobody is stuck. */
module ProtocolHistories {
  import opened Domain
  import opened Policy
  import opened ApprovalModel
  import opened ApprovalHistories
  import opened Protocol
  import opened ProtocolInvariant
  import opened ProtocolFresh
  import opened ProtocolTheorems
  import opened ProtocolRuns

  // ---- Every history happens ----

  /** A history that the system can begin and carry out: the policy asks before it runs the
      tool, and what succeeds had a payload that validates. */
  predicate Feasible(cfg: Config, ops: seq<Op>) {
    && IsHistory(ops) && ops[0].agent == AGENT && AsksFor(cfg, ops[0].tool, ops[0].payload)
    && forall i | 0 <= i < |ops| && ops[i].Finish? :: FeasibleEnd(cfg, ops, i)
  }

  predicate FeasibleEnd(cfg: Config, ops: seq<Op>, i: nat)
    requires 0 < |ops| && ops[0].Create? && i < |ops| && ops[i].Finish?
  {
    && ops[i].executor == EXECUTOR
    && (ops[i].ok ==> ops[0].tool in cfg.registry && cfg.registry[ops[0].tool].accepts(LastEditOrProposal(ops[..i])))
  }

  /** Approval 0 has this history, nothing is going on, and the requests so far are numbered. */
  predicate Happened(s: State, ops: seq<Op>) {
    && IsHistory(ops) && OpsOf(s.trace, 0) == ops && 0 in s.rows && s.rows[0] == RowOf(ops)
    && s.rowLock == map[] && s.redis == map[] && forall t | t in s.txs :: t < |ops|
  }

  lemma FrontFeasible(cfg: Config, ops: seq<Op>)
    requires Feasible(cfg, ops) && |ops| > 1
    ensures Feasible(cfg, ops[..|ops| - 1]) && MayFollow(ops[|ops| - 2], ops[|ops| - 1])
  {
    HistoryFront(ops);
    var front := ops[..|ops| - 1];
    forall i | 0 <= i < |front| && front[i].Finish?
      ensures FeasibleEnd(cfg, front, i)
    {
      assert FeasibleEnd(cfg, ops, i) && front[..i] == ops[..i];
    }
  }

  lemma Began(cfg: Config, ops: seq<Op>) returns (steps: seq<Step>, s: State)
    requires Feasible(cfg, ops) && |ops| == 1
    ensures At(cfg, Initial(cfg), steps, s) && Happened(s, ops)
  {
    var op := Create(AGENT, ops[0].tool, ops[0].payload);
    assert ops == [op];
    CreatedRow(op);
    steps, s := Creating(cfg, op.tool, op.payload);
  }

  lemma CreatedRow(op: Op)
    requires op.Create?
    ensures IsHistory([op]) && RowOf([op]) == Created(op)
  {
    ReplayIs([op]);
  }

  lemma Reviewed(cfg: Config, before: seq<Step>, s0: State, ops: seq<Op>, op: Op) returns (steps: seq<Step>, s: State)
    requires At(cfg, Initial(cfg), before, s0) && Happened(s0, ops) && IsHistory(ops + [op]) && (op.Approve? || op.Reject?)
    ensures At(cfg, Initial(cfg), steps, s) && Happened(s, ops + [op])
  {
    ReplayNext(ops, op);
    WrittenFresh(s0.rows[0], op);
    steps, s := Reviewing(cfg, Initial(cfg), before, s0, |ops|, op);
  }

  /** The row after one more operation. */
  lemma ReplayNext(ops: seq<Op>, op: Op)
    requires IsHistory(ops) && IsHistory(ops + [op])
    ensures Allowed(RowOf(ops), op) && RowOf(ops + [op]) == After(RowOf(ops), op)
  {
    ReplayIs(ops);
    ReplayIs(ops + [op]);
    assert (ops + [op])[..|ops|] == ops;
  }

  lemma Executed(cfg: Config, before: seq<Step>, s0: State, ops: seq<Op>, op: Op) returns (steps: seq<Step>, s: State)
    requires At(cfg, Initial(cfg), before, s0) && Happened(s0, ops) && IsHistory(ops + [op])
    requires op.Finish? && op.executor == EXECUTOR && ops[0].tool in cfg.registry
    requires op.ok ==> cfg.registry[ops[0].tool].accepts(LastEditOrProposal(ops))
    ensures At(cfg, Initial(cfg), steps, s) && Happened(s, ops + [op])
    ensures op.ok ==> Occurs(ApprovedHandlerCall(|ops|, 0, ops[0].tool, LastEditOrProposal(ops)), s.trace)
  {
    var start, row, t := Initial(cfg), s0.rows[0], |ops|;
    ReplayNext(ops, op);
    ReplayIs(ops);
    PayloadIntegrity(ops);
    WrittenFresh(row, op);
    var steps1, s1 := Reading(cfg, start, before, s0, t);
    var steps2, s2;
    if op.ok {
      steps2, s2 := Calling(cfg, start, steps1, s1, t, row);
    } else {
      steps2, s2 := Entering(cfg, start, steps1, s1, t, row);
    }
    assert OpsOf(s2.trace, 0) == OpsOf(s1.trace, 0);
    steps, s := Finishing(cfg, start, steps2, s2, t, row, if op.ok then 1 else 0, op.ok);
  }

  /** Whatever may happen to an approval does: each history that can be begun is that of some
      run, with exactly the row it leads to, and a success has had its handler called with the
      last edit or the proposal. */
  lemma {:induction false} EveryHistoryHappens(cfg: Config, ops: seq<Op>) returns (steps: seq<Step>, s: State)
    requires Feasible(cfg, ops)
    ensures Run(cfg, steps) == Some(s) && OpsOf(s.trace, 0) == ops && 0 in s.rows && Some(s.rows[0]) == Replay(ops)
    ensures var last := ops[|ops| - 1];
            last.Finish? && last.ok ==>
              Occurs(ApprovedHandlerCall(|ops| - 1, 0, ops[0].tool, LastEditOrProposal(ops[..|ops| - 1])), s.trace)
    ensures Happened(s, ops)
    decreases |ops|
  {
    ReplayIs(ops);
    if |ops| == 1 {
      steps, s := Began(cfg, ops);
    } else {
      var front, op := ops[..|ops| - 1], ops[|ops| - 1];
      FrontFeasible(cfg, ops);
      assert ops == front + [op];
      var before, s0 := EveryHistoryHappens(cfg, front);
      if op.Finish? {
        assert FeasibleEnd(cfg, ops, |ops| - 1);
        steps, s := Executed(cfg, before, s0, front, op);
      } else {
        steps, s := Reviewed(cfg, before, s0, front, op);
      }
    }
  }

  /** For one: what was edited is executed with the edit. */
  lemma EditIsExecuted(cfg: Config, tool: string, payload: Payload, edit: Payload, reviewer: string)
    returns (steps: seq<Step>, s: State)
    requires AsksFor(cfg, tool, payload) && edit != map[] && tool in cfg.registry && cfg.registry[tool].accepts(edit)
    ensures Run(cfg, steps) == Some(s)
    ensures OpsOf(s.trace, 0) == [Create(AGENT, tool, payload), Approve(reviewer, Some(edit)), Finish(EXECUTOR, true)]
    ensures Occurs(ApprovedHandlerCall(2, 0, tool, edit), s.trace)
  {
    var ops := [Create(AGENT, tool, payload), Approve(reviewer, Some(edit)), Finish(EXECUTOR, true)];
    assert MayFollowAt(ops, 1) && MayFollowAt(ops, 2);
    var edited := ops[..2];
    assert edited[|edited| - 1] == Approve(reviewer, Some(edit));
    assert FeasibleEnd(cfg, ops, 2);
    steps, s := EveryHistoryHappens(cfg, ops);
  }

  /** A tool that the policy allows is run directly. */
  lemma AllowedIsCalled(cfg: Config, tool: string, payload: Payload) returns (steps: seq<Step>, s: State)
    requires Decide(cfg.registry, cfg.seed, tool, payload).action == Allow
    ensures Run(cfg, steps) == Some(s) && Occurs(DirectHandlerCall(0, tool, payload), s.trace)
  {
    var s0 := Initial(cfg);
    Then1(cfg, s0, [], s0, Propose(0, tool, payload));
    var s1 := DoPropose(cfg, s0, 0, tool, payload).value;
    Then1(cfg, s0, [] + [Propose(0, tool, payload)], s1, CallDirect(0));
    steps, s := [] + [Propose(0, tool, payload)] + [CallDirect(0)], DoCallDirect(s1, 0).value;
  }

  // ---- Nobody is stuck ----

  predicate CanStep(cfg: Config, s: State, t: TxId, step: Step) {
    ActorOf(step) == Some(t) && Apply(cfg, s, step).Some?
  }

  /** In every reachable state each request that is not done can take a step of its own, unless
      it waits for a row that another request has locked. */
  lemma NobodyStuck(cfg: Config, steps: seq<Step>, t: TxId) returns (step: Step)
    requires Run(cfg, steps).Some? && t in Run(cfg, steps).value.txs && !Run(cfg, steps).value.txs[t].phase.Done?
    ensures var s := Run(cfg, steps).value;
            || CanStep(cfg, s, t, step)
            || (WaitsForRow(s, t, s.txs[t].id) && s.txs[t].id in s.rowLock && s.rowLock[s.txs[t].id] != t)
  {
    var s := Run(cfg, steps).value;
    RunKeepsInv(cfg, steps);
    assert TxOk(s, t);
    var id := s.txs[t].id;
    if Locked(s.txs[t].phase) {
      step := HolderStep(cfg, s, id);
    } else if WaitsForRow(s, t, id) {
      step := LockStep(s, t);
      if id !in s.rowLock {
        FreeRowCanBeLocked(cfg, s, t, id);
      }
    } else {
      step := OtherStep(cfg, s, t);
    }
  }

  lemma OtherStep(cfg: Config, s: State, t: TxId) returns (step: Step)
    requires Inv(cfg, s) && t in s.txs && TxOk(s, t) && !s.txs[t].phase.Done?
    requires !Locked(s.txs[t].phase) && !WaitsForRow(s, t, s.txs[t].id)
    ensures CanStep(cfg, s, t, step)
  {
    match s.txs[t].phase
    case Waiting => step := ReadUnlocked(t);
    case Glanced(_) => step := GiveUpRedis(t);
    case MayCall => step := CallDirect(t);
    case MustAsk =>
      var id := FreeId(s.rows.Keys);
      assert id !in s.rows.Keys;
      step := CreateApproval(t, id);
  }

  lemma {:induction false} FreeId(ids: set<ApprovalId>) returns (free: ApprovalId)
    ensures forall id | id in ids :: id < free
    decreases |ids|
  {
    if ids == {} {
      free := 0;
    } else {
      var id :| id in ids;
      var above := FreeId(ids - {id});
      free := if id < above then above else id + 1;
      assert forall i | i in ids :: i == id || i in ids - {id};
    }
  }
}
