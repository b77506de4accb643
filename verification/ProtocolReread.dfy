/** Every safety property of the approval protocol holds exactly when the locked read of an
    execution sees the committed row. */
module ProtocolReread {
  import opened Domain
  import opened ApprovalModel
  import opened Protocol
  import opened ProtocolInvariant
  import opened ProtocolFresh
  import opened ProtocolTheorems
  import opened ProtocolSafety
  import opened ProtocolRuns

  // ---- The properties ----

  /** At most one request enters the tool call of an approval. */
  ghost predicate AlwaysAtMostOne(cfg: Config) {
    forall steps: seq<Step>, id: ApprovalId ::
      Run(cfg, steps).Some? ==> Entries(Run(cfg, steps).value.trace, id) <= 1
  }

  /** None does where the approval stands rejected. */
  ghost predicate NeverAfterRejection(cfg: Config) {
    forall steps: seq<Step>, id: ApprovalId ::
      Run(cfg, steps).Some? && id in Run(cfg, steps).value.rows && Run(cfg, steps).value.rows[id].status.Rejected? ==>
        Entries(Run(cfg, steps).value.trace, id) == 0
  }

  /** All handler calls of an approval are one request's. */
  ghost predicate AlwaysOneExecutor(cfg: Config) {
    forall steps: seq<Step>, id: ApprovalId, t: TxId, u: TxId, tool: string, payload: Payload ::
      (&& Run(cfg, steps).Some?
       && Occurs(ApprovedHandlerCall(t, id, tool, payload), Run(cfg, steps).value.trace)
       && Occurs(ApprovedHandlerCall(u, id, tool, payload), Run(cfg, steps).value.trace)) ==>
        t == u
  }

  /** An approval that a handler is called for is never rejected. */
  ghost predicate CalledNeverRejected(cfg: Config) {
    forall steps: seq<Step>, id: ApprovalId, t: TxId, tool: string, payload: Payload ::
      Run(cfg, steps).Some? && Occurs(ApprovedHandlerCall(t, id, tool, payload), Run(cfg, steps).value.trace) ==>
        forall op | op in OpsOf(Run(cfg, steps).value.trace, id) :: !op.Reject?
  }

  /** When a handler is called for an approval, a person's approval or edit of this tool is the
      last word on record, and the payload is what stands there. */
  predicate ReviewedCall(past: Log, id: ApprovalId, tool: string, payload: Payload) {
    LastIsReview(AuditOf(past, id)) && Stands(OpsOf(past, id), tool, payload)
  }

  ghost predicate AlwaysReviewedCalls(cfg: Config) {
    forall steps: seq<Step>, past: Log, t: TxId, id: ApprovalId, tool: string, payload: Payload ::
      Run(cfg, steps).Some? && Earlier(Then(past, ApprovedHandlerCall(t, id, tool, payload)), Run(cfg, steps).value.trace) ==>
        ReviewedCall(past, id, tool, payload)
  }

  predicate Keeps(s: State, s': State, id: ApprovalId) {
    id in s.rows && Terminal(s.rows[id].status) ==> id in s'.rows && s'.rows[id] == s.rows[id]
  }

  /** What has ended stays as it is. */
  ghost predicate AlwaysEndedForever(cfg: Config) {
    forall steps: seq<Step>, more: seq<Step>, id: ApprovalId ::
      Run(cfg, steps).Some? && RunFrom(cfg, Run(cfg, steps).value, more).Some? ==>
        Keeps(Run(cfg, steps).value, RunFrom(cfg, Run(cfg, steps).value, more).value, id)
  }

  /** The audit records of an approval alone give its status. */
  predicate AuditTells(s: State, id: ApprovalId) {
    if id in s.rows then StatusFromAudit(AuditOf(s.trace, id)) == Some(s.rows[id].status)
    else AuditOf(s.trace, id) == []
  }

  ghost predicate AlwaysAuditReplays(cfg: Config) {
    forall steps: seq<Step>, id: ApprovalId :: Run(cfg, steps).Some? ==> AuditTells(Run(cfg, steps).value, id)
  }

  /** Executions entered are those that ended and those in progress. */
  ghost predicate AlwaysConserved(cfg: Config) {
    forall steps: seq<Step> :: Run(cfg, steps).Some? ==> Conserved(Run(cfg, steps).value)
  }

  // ---- Two executions ----

  /** Two requests of a run each called the handler of approval 0, and one of them is not
      through while the other has committed. */
  predicate CalledTwice(s: State, tool: string, payload: Payload) {
    && Entries(s.trace, 0) == 2
    && Occurs(ApprovedHandlerCall(2, 0, tool, payload), s.trace) && Occurs(ApprovedHandlerCall(3, 0, tool, payload), s.trace)
    && 0 in EndedIds(s) && 0 in BusyIds(s)
  }

  /** Two requests read the approved row; the first executes it and commits; the second, with
      the copy it has, does so again. */
  lemma StaleReadsExecuteTwice(cfg: Config, tool: string, payload: Payload) returns (steps: seq<Step>)
    requires !cfg.rereads && AsksFor(cfg, tool, payload)
    ensures Run(cfg, steps).Some? && CalledTwice(Run(cfg, steps).value, tool, payload)
  {
    var start, row := Initial(cfg), ApprovedRow(tool, payload);
    var steps0, s0 := Approving(cfg, tool, payload);
    var steps1, s1 := Reading(cfg, start, steps0, s0, 2);
    var steps2, s2 := Reading(cfg, start, steps1, s1, 3);
    var steps3, s3 := Calling(cfg, start, steps2, s2, 2, row);
    var steps4, s4 := Finishing(cfg, start, steps3, s3, 2, row, 1, true);
    var steps5, s5 := Calling(cfg, start, steps4, s4, 3, row);
    steps := steps5;
    TwiceIn(s0.trace, s4.trace.last, row);
    assert s5.rows[0].status.Executed?;
  }

  lemma TwiceIn(before: Log, e: Event, row: Row)
    requires Entries(before, 0) == 0 && e.Committed?
    ensures var payload := FinalPayload(row);
            var first := Then(Then(before, Entered(2, 0, payload)), HandlerCalled(2, row));
            var after := Then(Then(Then(first, e), Entered(3, 0, payload)), HandlerCalled(3, row));
            Entries(after, 0) == 2 && Occurs(HandlerCalled(2, row), after) && Occurs(HandlerCalled(3, row), after)
  {
    var payload := FinalPayload(row);
    var first := Then(Then(before, Entered(2, 0, payload)), HandlerCalled(2, row));
    assert Entries(first, 0) == 1 && Occurs(HandlerCalled(2, row), first);
    var second := Then(Then(first, e), Entered(3, 0, payload));
    assert Entries(second, 0) == 2 && Occurs(HandlerCalled(2, row), Then(first, e));
    assert Occurs(HandlerCalled(2, row), second);
  }

  // ---- An execution of what was rejected ----

  /** The handler of approval 0 was called although it stands rejected. */
  predicate CalledRejected(s: State, tool: string, payload: Payload) {
    && 0 in s.rows && s.rows[0].status.Rejected? && Entries(s.trace, 0) == 1
    && Occurs(ApprovedHandlerCall(2, 0, tool, payload), s.trace)
    && (exists op :: op in OpsOf(s.trace, 0) && op.Reject?)
    && s.trace.last == ApprovedHandlerCall(2, 0, tool, payload) && !LastIsReview(AuditOf(s.trace.before, 0))
  }

  /** Approval 0 stands rejected, on record, while request 2 waits with the approved row. */
  predicate RejectedMeanwhile(s: State, row: Row) {
    && 0 in s.rows && s.rows[0].status.Rejected? && 0 !in s.rowLock && 0 !in s.redis
    && WaitsWith(s, 2, row) && Entries(s.trace, 0) == 0
    && Reject(REVIEWER) in OpsOf(s.trace, 0)
    && AuditOf(s.trace, 0) != [] && AuditOf(s.trace, 0)[|AuditOf(s.trace, 0)| - 1].after.Rejected?
    && !LastIsReview(AuditOf(s.trace, 0))
  }

  lemma RejectingMeanwhile(cfg: Config, tool: string, payload: Payload) returns (steps: seq<Step>, s: State)
    requires AsksFor(cfg, tool, payload)
    ensures At(cfg, Initial(cfg), steps, s) && RejectedMeanwhile(s, ApprovedRow(tool, payload))
    ensures tool in cfg.registry && cfg.registry[tool].accepts(payload)
  {
    var start := Initial(cfg);
    var steps0, s0 := Approving(cfg, tool, payload);
    var steps1, s1 := Reading(cfg, start, steps0, s0, 2);
    steps, s := Reviewing(cfg, start, steps1, s1, 4, Reject(REVIEWER));
    RejectedIn(s1.trace, s.trace.last);
  }

  lemma RejectedIn(before: Log, e: Event)
    requires e.Committed? && e.id == 0 && e.op == Reject(REVIEWER)
    ensures var after := Then(before, e);
            Reject(REVIEWER) in OpsOf(after, 0) && AuditOf(after, 0) == AuditOf(before, 0) + [e.record]
  {
    assert OpsOf(Then(before, e), 0)[|OpsOf(before, 0)|] == e.op;
  }

  /** With a stale locked read request 2 goes on all the same. */
  lemma CallingRejected(cfg: Config, s: State, tool: string, payload: Payload) returns (steps: seq<Step>, s': State)
    requires !cfg.rereads && RejectedMeanwhile(s, ApprovedRow(tool, payload))
    requires tool in cfg.registry && cfg.registry[tool].accepts(payload)
    ensures At(cfg, s, steps, s') && CalledRejected(s', tool, payload)
    ensures AuditOf(s'.trace, 0) == AuditOf(s.trace, 0)
    ensures 0 in s'.rows && 0 in s'.redis && s'.redis[0] == 2
    ensures 2 in s'.txs && s'.txs[2] == Tx(0, Execute, InCall(ApprovedRow(tool, payload), 1))
  {
    steps, s' := Calling(cfg, s, [], s, 2, ApprovedRow(tool, payload));
    assert OpsOf(s'.trace, 0) == OpsOf(s'.trace.before, 0) == OpsOf(s.trace, 0);
    assert Entries(s'.trace.before, 0) == 1;
    assert AuditOf(s'.trace, 0) == AuditOf(s'.trace.before, 0);
  }

  /** A request reads the approved row; a reviewer rejects it; the request executes the copy
      it has, and then commits over the rejection. */
  lemma StaleReadExecutesRejected(cfg: Config, tool: string, payload: Payload)
    returns (steps: seq<Step>, calling: seq<Step>, committing: seq<Step>)
    requires !cfg.rereads && AsksFor(cfg, tool, payload)
    ensures Run(cfg, steps).Some? && Run(cfg, steps + calling).Some? && Run(cfg, steps + calling + committing).Some?
    ensures var s := Run(cfg, steps).value;
            0 in s.rows && s.rows[0].status.Rejected? && Entries(s.trace, 0) == 0
    ensures CalledRejected(Run(cfg, steps + calling).value, tool, payload)
    ensures RunFrom(cfg, Run(cfg, steps).value, calling + committing) == Run(cfg, steps + calling + committing)
    ensures var s := Run(cfg, steps + calling + committing).value;
            0 in s.rows && s.rows[0].status.Executed? && StatusFromAudit(AuditOf(s.trace, 0)) == None
  {
    var start, row := Initial(cfg), ApprovedRow(tool, payload);
    var steps2, s2 := RejectingMeanwhile(cfg, tool, payload);
    var steps3, s3 := CallingRejected(cfg, s2, tool, payload);
    var steps4, s4 := Finishing(cfg, s3, [], s3, 2, row, 1, true);
    steps, calling, committing := steps2, steps3, steps4;
    RunOn(cfg, start, steps, s2, calling, s3);
    RunOn(cfg, start, steps + calling, s3, committing, s4);
    RunOn(cfg, s2, calling, s3, committing, s4);
    BrokenChain(s3.trace, s4.trace.last, row);
  }

  /** An execution recorded as following an approval, where the record before it is of a
      rejection. */
  lemma BrokenChain(before: Log, e: Event, row: Row)
    requires row.status.Approved?
    requires AuditOf(before, 0) != [] && AuditOf(before, 0)[|AuditOf(before, 0)| - 1].after.Rejected?
    requires e.Committed? && e.id == 0 && e.op == Finish(EXECUTOR, true) && e.record == RecordFor(row, e.op)
    ensures StatusFromAudit(AuditOf(Then(before, e), 0)) == None
  {
    BrokenLink(AuditOf(before, 0), e.record);
  }

  lemma BrokenLink(log: seq<AuditRecord>, record: AuditRecord)
    requires log != [] && log[|log| - 1].after.Rejected? && record.before == Some(ApprovalStatus.Approved)
    ensures StatusFromAudit(log + [record]) == None
  {
    assert (log + [record])[..|log|] == log;
  }

  // ---- Exactly when ----

  lemma AtMostOneIffReread(cfg: Config, tool: string, payload: Payload)
    requires AsksFor(cfg, tool, payload)
    ensures AlwaysAtMostOne(cfg) <==> cfg.rereads
  {
    if cfg.rereads {
      forall steps: seq<Step>, id: ApprovalId | Run(cfg, steps).Some?
        ensures Entries(Run(cfg, steps).value.trace, id) <= 1
      {
        RereadsFresh(cfg, Initial(cfg), steps);
        AtMostOneExecution(cfg, steps, id);
      }
    } else {
      var steps := StaleReadsExecuteTwice(cfg, tool, payload);
      assert Entries(Run(cfg, steps).value.trace, 0) == 2;
    }
  }

  lemma NeverAfterRejectionIffReread(cfg: Config, tool: string, payload: Payload)
    requires AsksFor(cfg, tool, payload)
    ensures NeverAfterRejection(cfg) <==> cfg.rereads
  {
    if cfg.rereads {
      forall steps: seq<Step>, id: ApprovalId
        | Run(cfg, steps).Some? && id in Run(cfg, steps).value.rows && Run(cfg, steps).value.rows[id].status.Rejected?
        ensures Entries(Run(cfg, steps).value.trace, id) == 0
      {
        RereadsFresh(cfg, Initial(cfg), steps);
        AtMostOneExecution(cfg, steps, id);
      }
    } else {
      var steps, calling, committing := StaleReadExecutesRejected(cfg, tool, payload);
      assert CalledRejected(Run(cfg, steps + calling).value, tool, payload);
    }
  }

  lemma OneExecutorIffReread(cfg: Config, tool: string, payload: Payload)
    requires AsksFor(cfg, tool, payload)
    ensures AlwaysOneExecutor(cfg) <==> cfg.rereads
  {
    if cfg.rereads {
      forall steps: seq<Step>, id: ApprovalId, t: TxId, u: TxId, tool: string, payload: Payload
        | Run(cfg, steps).Some?
          && Occurs(ApprovedHandlerCall(t, id, tool, payload), Run(cfg, steps).value.trace)
          && Occurs(ApprovedHandlerCall(u, id, tool, payload), Run(cfg, steps).value.trace)
        ensures t == u
      {
        RereadsFresh(cfg, Initial(cfg), steps);
        OneExecutor(cfg, steps, id, t, tool, payload, u, tool, payload);
      }
    } else {
      var steps := StaleReadsExecuteTwice(cfg, tool, payload);
      assert CalledTwice(Run(cfg, steps).value, tool, payload);
    }
  }

  lemma CalledNeverRejectedIffReread(cfg: Config, tool: string, payload: Payload)
    requires AsksFor(cfg, tool, payload)
    ensures CalledNeverRejected(cfg) <==> cfg.rereads
  {
    if cfg.rereads {
      forall steps: seq<Step>, id: ApprovalId, t: TxId, tool: string, payload: Payload
        | Run(cfg, steps).Some? && Occurs(ApprovedHandlerCall(t, id, tool, payload), Run(cfg, steps).value.trace)
        ensures forall op | op in OpsOf(Run(cfg, steps).value.trace, id) :: !op.Reject?
      {
        HandlerEntered(cfg, steps, t, id, tool, payload);
        RereadsFresh(cfg, Initial(cfg), steps);
        NeverRejected(cfg, steps, t, id, payload);
      }
    } else {
      var steps, calling, committing := StaleReadExecutesRejected(cfg, tool, payload);
      assert CalledRejected(Run(cfg, steps + calling).value, tool, payload);
    }
  }

  lemma ReviewedCallsIffReread(cfg: Config, tool: string, payload: Payload)
    requires AsksFor(cfg, tool, payload)
    ensures AlwaysReviewedCalls(cfg) <==> cfg.rereads
  {
    if cfg.rereads {
      forall steps: seq<Step>, past: Log, t: TxId, id: ApprovalId, tool: string, payload: Payload
        | Run(cfg, steps).Some? && Earlier(Then(past, ApprovedHandlerCall(t, id, tool, payload)), Run(cfg, steps).value.trace)
        ensures ReviewedCall(past, id, tool, payload)
      {
        RereadsFresh(cfg, Initial(cfg), steps);
        ApprovedCallsReviewed(cfg, steps, past, t, id, tool, payload);
      }
    } else {
      var steps, calling, committing := StaleReadExecutesRejected(cfg, tool, payload);
      var trace := Run(cfg, steps + calling).value.trace;
      assert trace == Then(trace.before, ApprovedHandlerCall(2, 0, tool, payload)) && Earlier(trace, trace);
      assert !ReviewedCall(trace.before, 0, tool, payload);
    }
  }

  lemma EndedForeverIffReread(cfg: Config, tool: string, payload: Payload)
    requires AsksFor(cfg, tool, payload)
    ensures AlwaysEndedForever(cfg) <==> cfg.rereads
  {
    if cfg.rereads {
      forall steps: seq<Step>, more: seq<Step>, id: ApprovalId
        | Run(cfg, steps).Some? && RunFrom(cfg, Run(cfg, steps).value, more).Some?
        ensures Keeps(Run(cfg, steps).value, RunFrom(cfg, Run(cfg, steps).value, more).value, id)
      {
        if id in Run(cfg, steps).value.rows && Terminal(Run(cfg, steps).value.rows[id].status) {
          RereadsFresh(cfg, Initial(cfg), steps);
          RereadsFresh(cfg, Run(cfg, steps).value, more);
          EndedForever(cfg, steps, more, id);
        }
      }
    } else {
      var steps, calling, committing := StaleReadExecutesRejected(cfg, tool, payload);
      assert !Keeps(Run(cfg, steps).value, RunFrom(cfg, Run(cfg, steps).value, calling + committing).value, 0);
    }
  }

  lemma AuditReplaysIffReread(cfg: Config, tool: string, payload: Payload)
    requires AsksFor(cfg, tool, payload)
    ensures AlwaysAuditReplays(cfg) <==> cfg.rereads
  {
    if cfg.rereads {
      forall steps: seq<Step>, id: ApprovalId | Run(cfg, steps).Some?
        ensures AuditTells(Run(cfg, steps).value, id)
      {
        RereadsFresh(cfg, Initial(cfg), steps);
        AuditReplaysRun(cfg, steps, id);
      }
    } else {
      var steps, calling, committing := StaleReadExecutesRejected(cfg, tool, payload);
      assert !AuditTells(Run(cfg, steps + calling + committing).value, 0);
    }
  }

  lemma ConservedIffReread(cfg: Config, tool: string, payload: Payload)
    requires AsksFor(cfg, tool, payload)
    ensures AlwaysConserved(cfg) <==> cfg.rereads
  {
    if cfg.rereads {
      forall steps: seq<Step> | Run(cfg, steps).Some?
        ensures Conserved(Run(cfg, steps).value)
      {
        RereadsFresh(cfg, Initial(cfg), steps);
        ExecutionsConserved(cfg, steps);
      }
    } else {
      var steps := StaleReadsExecuteTwice(cfg, tool, payload);
      assert !Conserved(Run(cfg, steps).value);
    }
  }
}
