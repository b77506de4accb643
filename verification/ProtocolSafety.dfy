/** Safety of the runs whose locked reads find the committed row. */
module ProtocolSafety {
  import opened Domain
  import opened ApprovalModel
  import opened Protocol
  import opened ProtocolInvariant
  import opened ProtocolFresh
  import opened ProtocolTheorems

  // ---- At most one execution ----

  lemma EntriesBound(s: State, id: ApprovalId)
    requires Discipline(s) && Exact(s)
    ensures Entries(s.trace, id) <= 1
    ensures id in s.rows && s.rows[id].status.Rejected? ==> Entries(s.trace, id) == 0
  {
    if Busy(s, id) {
      assert TxOk(s, s.rowLock[id]) && Current(s, s.rowLock[id]);
    }
  }

  /** At most one request ever enters the tool call of an approval, and none while or after
      the approval stands rejected. */
  lemma AtMostOneExecution(cfg: Config, steps: seq<Step>, id: ApprovalId)
    requires FreshRun(cfg, steps) && Run(cfg, steps).Some?
    ensures var s := Run(cfg, steps).value;
            && Entries(s.trace, id) <= 1
            && (id in s.rows && s.rows[id].status.Rejected? ==> Entries(s.trace, id) == 0)
  {
    RunKeepsExact(cfg, steps);
    EntriesBound(Run(cfg, steps).value, id);
  }

  lemma {:induction false} OccursCounts(e: Event, trace: Log)
    requires e.Entered? && Occurs(e, trace)
    ensures Entries(trace, e.id) >= 1
  {
    if trace.last != e {
      OccursCounts(e, trace.before);
    }
  }

  lemma {:induction false} TwoCount(d: Event, e: Event, trace: Log)
    requires d.Entered? && e.Entered? && d.id == e.id && d != e && Occurs(d, trace) && Occurs(e, trace)
    ensures Entries(trace, e.id) >= 2
  {
    if trace.last == d {
      OccursCounts(e, trace.before);
    } else if trace.last == e {
      OccursCounts(d, trace.before);
    } else {
      TwoCount(d, e, trace.before);
    }
  }

  /** A handler call is its request's, which entered the tool call before it. */
  lemma HandlerEntered(cfg: Config, steps: seq<Step>, t: TxId, id: ApprovalId, tool: string, payload: Payload)
    requires Run(cfg, steps).Some? && Occurs(ApprovedHandlerCall(t, id, tool, payload), Run(cfg, steps).value.trace)
    ensures Occurs(Entered(t, id, payload), Run(cfg, steps).value.trace)
  {
    var trace := Run(cfg, steps).value.trace;
    var here := OccursAt(ApprovedHandlerCall(t, id, tool, payload), trace);
    assert here == Then(here.before, ApprovedHandlerCall(t, id, tool, payload));
    EventSound(cfg, steps, here.before, ApprovedHandlerCall(t, id, tool, payload));
    OccursLater(Entered(t, id, payload), here.before, here);
    OccursLater(Entered(t, id, payload), here, trace);
  }

  /** All handler calls of an approval are the same request's, with the same payload. */
  lemma OneExecutor(cfg: Config, steps: seq<Step>, id: ApprovalId, t: TxId, tool: string, payload: Payload,
                    u: TxId, other: string, otherPayload: Payload)
    requires FreshRun(cfg, steps) && Run(cfg, steps).Some?
    requires Occurs(ApprovedHandlerCall(t, id, tool, payload), Run(cfg, steps).value.trace)
    requires Occurs(ApprovedHandlerCall(u, id, other, otherPayload), Run(cfg, steps).value.trace)
    ensures t == u && payload == otherPayload
  {
    var trace := Run(cfg, steps).value.trace;
    HandlerEntered(cfg, steps, t, id, tool, payload);
    HandlerEntered(cfg, steps, u, id, other, otherPayload);
    AtMostOneExecution(cfg, steps, id);
    if t != u || payload != otherPayload {
      TwoCount(Entered(t, id, payload), Entered(u, id, otherPayload), trace);
    }
  }

  // ---- Ended forever ----

  lemma OnlyCommitsWrite(cfg: Config, s: State, step: Step)
    requires Apply(cfg, s, step).Some? && !step.Commit? && !step.CreateApproval?
    ensures Apply(cfg, s, step).value.rows == s.rows
  {
  }

  lemma EndedStep(cfg: Config, s: State, step: Step, id: ApprovalId)
    requires Discipline(s) && Exact(s) && Apply(cfg, s, step).Some?
    requires id in s.rows && Terminal(s.rows[id].status)
    ensures id in Apply(cfg, s, step).value.rows && Apply(cfg, s, step).value.rows[id] == s.rows[id]
  {
    if step.Commit? {
      assert TxOk(s, step.t) && Current(s, step.t);
    } else if !step.CreateApproval? {
      OnlyCommitsWrite(cfg, s, step);
    }
  }

  lemma {:induction false} EndedFrom(cfg: Config, s: State, more: seq<Step>, id: ApprovalId)
    requires FreshFrom(cfg, s, more) && ExactInv(cfg, s) && RunFrom(cfg, s, more).Some?
    requires id in s.rows && Terminal(s.rows[id].status)
    ensures id in RunFrom(cfg, s, more).value.rows && RunFrom(cfg, s, more).value.rows[id] == s.rows[id]
  {
    if |more| == 0 {
    } else {
      var before := more[..|more| - 1];
      EndedFrom(cfg, s, before, id);
      RunFromKeepsExact(cfg, s, before);
      EndedStep(cfg, RunFrom(cfg, s, before).value, more[|more| - 1], id);
    }
  }

  /** A rejected, executed or failed approval stays exactly as it is however the run goes on. */
  lemma EndedForever(cfg: Config, steps: seq<Step>, more: seq<Step>, id: ApprovalId)
    requires FreshRun(cfg, steps) && Run(cfg, steps).Some?
    requires FreshFrom(cfg, Run(cfg, steps).value, more) && RunFrom(cfg, Run(cfg, steps).value, more).Some?
    requires id in Run(cfg, steps).value.rows && Terminal(Run(cfg, steps).value.rows[id].status)
    ensures var s' := RunFrom(cfg, Run(cfg, steps).value, more).value;
            id in s'.rows && s'.rows[id] == Run(cfg, steps).value.rows[id]
  {
    RunKeepsExact(cfg, steps);
    EndedFrom(cfg, Run(cfg, steps).value, more, id);
  }

  // ---- The audit log ----

  lemma RecordsMore(ops: seq<Op>, op: Op)
    requires Replay(ops).Some? && Allowed(Replay(ops).value, op)
    ensures Replay(ops + [op]).Some? && Records(ops + [op]) == Records(ops) + [RecordFor(Replay(ops).value, op)]
  {
    assert (ops + [op])[..|ops + [op]| - 1] == ops;
  }

  /** The records in the trace are those of the history in it. */
  predicate AuditIs(trace: Log, id: ApprovalId) {
    var ops := OpsOf(trace, id);
    if ops == [] then AuditOf(trace, id) == [] else Replay(ops).Some? && AuditOf(trace, id) == Records(ops)
  }

  lemma {:induction false} AuditMatches(cfg: Config, trace: Log, id: ApprovalId)
    requires Sound(cfg, trace) && Replayed(trace)
    ensures AuditIs(trace, id)
  {
    if trace.Empty? {
    } else {
      AuditMatches(cfg, trace.before, id);
      AuditMatchesNext(cfg, trace, id);
    }
  }

  lemma AuditMatchesNext(cfg: Config, trace: Log, id: ApprovalId)
    requires trace.Then? && EventOk(cfg, trace.before, trace.last) && EventReplayed(trace.before, trace.last)
    requires AuditIs(trace.before, id)
    ensures AuditIs(trace, id)
  {
    var ops, e := OpsOf(trace.before, id), trace.last;
    if e.Committed? && e.id == id && !e.op.Create? {
      RecordsMore(ops, e.op);
    }
  }

  /** Replaying nothing but the audit records of an approval gives its current status. */
  lemma AuditReplaysRun(cfg: Config, steps: seq<Step>, id: ApprovalId)
    requires FreshRun(cfg, steps) && Run(cfg, steps).Some?
    ensures var s := Run(cfg, steps).value;
            if id in s.rows then StatusFromAudit(AuditOf(s.trace, id)) == Some(s.rows[id].status)
            else AuditOf(s.trace, id) == []
  {
    RunKeepsExact(cfg, steps);
    var s := Run(cfg, steps).value;
    AuditMatches(cfg, s.trace, id);
    if id in s.rows {
      AuditReplay(OpsOf(s.trace, id));
    }
  }

  // ---- Every approved call is reviewed ----

  lemma {:induction false} ReplayedEarlier(past: Log, trace: Log)
    requires Replayed(trace) && Earlier(past, trace)
    ensures Replayed(past)
  {
    if past == trace {
    } else {
      ReplayedEarlier(past, trace.before);
    }
  }

  /** What was once executed is never rejected. */
  lemma EnteredNeverRejected(s: State, id: ApprovalId)
    requires RowsReplay(s) && id in s.rows && !s.rows[id].status.Rejected?
    ensures forall op | op in OpsOf(s.trace, id) :: !op.Reject?
  {
    NothingEndedBefore(OpsOf(s.trace, id));
  }

  lemma {:induction false} ToolKept(ops: seq<Op>)
    requires Replay(ops).Some?
    ensures ops[0].Create? && Replay(ops).value.toolName == ops[0].tool
    decreases |ops|
  {
    if |ops| == 1 {
    } else {
      ToolKept(ops[..|ops| - 1]);
    }
  }

  /** A handler run by execute_approved: the audit log then ended in a human approval or
      edit; no rejection of that approval is ever recorded, before or after; the payload is
      the last edit, or the proposal where there is none or an empty one; and the tool is
      the one proposed. */
  lemma ApprovedCallsReviewed(cfg: Config, steps: seq<Step>, past: Log,
                              t: TxId, id: ApprovalId, tool: string, payload: Payload)
    requires FreshRun(cfg, steps) && Run(cfg, steps).Some?
    requires Earlier(Then(past, ApprovedHandlerCall(t, id, tool, payload)), Run(cfg, steps).value.trace)
    ensures LastIsReview(AuditOf(past, id)) && OpsOf(past, id) != [] && OpsOf(past, id)[|OpsOf(past, id)| - 1].Approve?
    ensures forall op | op in OpsOf(Run(cfg, steps).value.trace, id) :: !op.Reject?
    ensures var ops := OpsOf(past, id);
            ops != [] && ops[0].Create? && ops[0].tool == tool && payload == LastEditOrProposal(ops)
  {
    var e := ApprovedHandlerCall(t, id, tool, payload);
    RunKeepsExact(cfg, steps);
    ReplayedEarlier(Then(past, e), Run(cfg, steps).value.trace);
    EventSound(cfg, steps, past, e);
    var ops := OpsOf(past, id);
    ExecutableMeansReviewed(ops);
    PayloadIntegrity(ops);
    ToolKept(ops);
    ReviewOnRecord(cfg, past, id);
    OccursLater(e, Then(past, e), Run(cfg, steps).value.trace);
    HandlerEntered(cfg, steps, t, id, tool, payload);
    NeverRejected(cfg, steps, t, id, payload);
  }

  lemma NeverRejected(cfg: Config, steps: seq<Step>, t: TxId, id: ApprovalId, payload: Payload)
    requires FreshRun(cfg, steps) && Run(cfg, steps).Some? && Occurs(Entered(t, id, payload), Run(cfg, steps).value.trace)
    ensures forall op | op in OpsOf(Run(cfg, steps).value.trace, id) :: !op.Reject?
  {
    var s := Run(cfg, steps).value;
    OccursCounts(Entered(t, id, payload), s.trace);
    RunKeepsExact(cfg, steps);
    EntriesBound(s, id);
    if id in s.rows {
      EnteredNeverRejected(s, id);
    }
  }

  // ---- Conservation ----

  function EnteredIds(trace: Log): set<ApprovalId> {
    match trace
    case Empty => {}
    case Then(before, e) => if e.Entered? then EnteredIds(before) + {e.id} else EnteredIds(before)
  }

  lemma {:induction false} CountEnteredIds(trace: Log)
    requires forall id: ApprovalId :: Entries(trace, id) <= 1
    ensures |EnteredIds(trace)| == TotalEntries(trace)
    ensures forall id: ApprovalId :: id in EnteredIds(trace) <==> Entries(trace, id) == 1
  {
    if trace.Empty? {
    } else {
      forall id: ApprovalId
        ensures Entries(trace.before, id) <= 1
      {
        assert Entries(trace, id) <= 1;
      }
      CountEnteredIds(trace.before);
      if trace.last.Entered? {
        assert Entries(trace, trace.last.id) <= 1;
      }
    }
  }

  function EndedIds(s: State): set<ApprovalId> {
    set id | id in s.rows && Ended(s.rows[id].status)
  }

  function BusyIds(s: State): set<ApprovalId> {
    set id | id in s.rowLock && Busy(s, id)
  }

  /** As many executions were entered as approvals are executed or failed, plus those still
      running or not yet committed. */
  predicate Conserved(s: State) {
    TotalEntries(s.trace) == |EndedIds(s)| + |BusyIds(s)| && EndedIds(s) !! BusyIds(s)
  }

  lemma ExecutionsConserved(cfg: Config, steps: seq<Step>)
    requires FreshRun(cfg, steps) && Run(cfg, steps).Some?
    ensures Conserved(Run(cfg, steps).value)
  {
    RunKeepsExact(cfg, steps);
    var s := Run(cfg, steps).value;
    forall id: ApprovalId
      ensures Entries(s.trace, id) <= 1
      ensures Entries(s.trace, id) == 1 <==> id in EndedIds(s) + BusyIds(s)
      ensures !(id in EndedIds(s) && id in BusyIds(s))
    {
      AtMostOneExecution(cfg, steps, id);
    }
    CountEnteredIds(s.trace);
    assert EnteredIds(s.trace) == EndedIds(s) + BusyIds(s);
  }
}
