/** Approval requests as values: a row and the status of its tool call, the operations of
    app/services/approval.py, and what a history of them comes to. */
module ApprovalModel {
  import opened Domain

  datatype Row = Row(
    toolName: string,
    proposed: Payload,
    edited: Option<Payload>,
    status: ApprovalStatus,
    reviewer: Option<string>,
    call: Option<ToolCallStatus>
  )

  datatype EventType = CreatedEvent | ApprovedEvent | EditedEvent | RejectedEvent | ExecutedEvent | FailedEvent

  /** One row of the audit log about an approval: who, what, and the statuses around it. */
  datatype AuditRecord = AuditRecord(
    actorType: ActorType,
    actorId: string,
    event: EventType,
    before: Option<ApprovalStatus>,
    after: ApprovalStatus
  )

  /** What can happen to an approval. `Approve` with a payload is the edit endpoint. */
  datatype Op =
    | Create(agent: string, tool: string, payload: Payload)
    | Approve(reviewer: string, edit: Option<Payload>)
    | Reject(reviewer: string)
    | Finish(executor: string, ok: bool)

  predicate CanApprove(status: ApprovalStatus) {
    status.PendingReview? || status.Proposed? || status.Edited?
  }

  predicate CanReject(status: ApprovalStatus) {
    status.PendingReview? || status.Proposed? || status.Approved? || status.Edited?
  }

  predicate CanExecute(status: ApprovalStatus) {
    status.Approved? || status.Edited?
  }

  predicate Terminal(status: ApprovalStatus) {
    status.Rejected? || status.Executed? || status.Cancelled? || status.Failed?
  }

  function Created(op: Op): Row
    requires op.Create?
  {
    Row(op.tool, op.payload, None, ApprovalStatus.PendingReview, None, Some(ToolCallStatus.WaitingForApproval))
  }

  /** Whether the operation passes its status guard. Finishing follows the executor, which
      only finishes a row it found executable. */
  predicate Allowed(row: Row, op: Op) {
    match op
    case Create(_, _, _) => false
    case Approve(_, _) => CanApprove(row.status)
    case Reject(_) => CanReject(row.status)
    case Finish(_, _) => CanExecute(row.status)
  }

  /** The row after an operation that passed its guard. */
  function After(row: Row, op: Op): Row
    requires Allowed(row, op)
  {
    match op
    case Approve(who, Some(payload)) =>
      row.(edited := Some(payload), status := ApprovalStatus.Edited, reviewer := Some(who))
    case Approve(who, None) =>
      row.(status := ApprovalStatus.Approved, reviewer := Some(who))
    case Reject(who) =>
      row.(status := ApprovalStatus.Rejected, reviewer := Some(who),
           call := if row.call.Some? then Some(ToolCallStatus.Denied) else None)
    case Finish(_, ok) =>
      row.(status := if ok then ApprovalStatus.Executed else ApprovalStatus.Failed,
           call := if row.call.Some? then Some(if ok then ToolCallStatus.Completed else ToolCallStatus.Failed) else None)
  }

  /** The audit record the operation writes. */
  function RecordFor(row: Row, op: Op): AuditRecord
    requires Allowed(row, op)
  {
    var after := After(row, op).status;
    match op
    case Approve(who, edit) =>
      AuditRecord(Human, who, if edit.Some? then EditedEvent else ApprovedEvent, Some(row.status), after)
    case Reject(who) => AuditRecord(Human, who, RejectedEvent, Some(row.status), after)
    case Finish(executor, ok) =>
      AuditRecord(System, executor, if ok then ExecutedEvent else FailedEvent, Some(row.status), after)
  }

  function CreationRecord(op: Op): AuditRecord
    requires op.Create?
  {
    AuditRecord(Agent, op.agent, CreatedEvent, None, ApprovalStatus.PendingReview)
  }

  /** `edited_payload or proposed_payload`: an empty edit is falsy. */
  function FinalPayload(row: Row): Payload {
    if row.edited.Some? && row.edited.value != map[] then row.edited.value else row.proposed
  }

  // ---- Histories ----

  /** A creation followed by operations that each passed their guard: the row they lead to. */
  function Replay(ops: seq<Op>): Option<Row> {
    if |ops| == 0 then None
    else if |ops| == 1 then
      if ops[0].Create? then Some(Created(ops[0])) else None
    else
      var before := Replay(ops[..|ops| - 1]);
      var op := ops[|ops| - 1];
      if before.Some? && Allowed(before.value, op) then Some(After(before.value, op)) else None
  }

  /** The audit records of a history, oldest first. */
  function Records(ops: seq<Op>): seq<AuditRecord>
    requires Replay(ops).Some?
  {
    if |ops| == 1 then [CreationRecord(ops[0])]
    else
      var init := ops[..|ops| - 1];
      Records(init) + [RecordFor(Replay(init).value, ops[|ops| - 1])]
  }

  /** Reads nothing but the audit log: every record must continue where the one before it
      stopped, and the first must be a creation. */
  function StatusFromAudit(log: seq<AuditRecord>): Option<ApprovalStatus> {
    if |log| == 0 then None
    else
      var last := log[|log| - 1];
      if last.before == StatusFromAudit(log[..|log| - 1]) && (|log| == 1 <==> last.event == CreatedEvent)
      then Some(last.after) else None
  }

  /** The payload of the last edit when it is not empty, otherwise the proposal. */
  function LastEditOrProposal(ops: seq<Op>): Payload {
    match LastEdit(ops)
    case Some(payload) => if payload != map[] then payload else Proposal(ops)
    case None => Proposal(ops)
  }

  function LastEdit(ops: seq<Op>): Option<Payload> {
    if |ops| == 0 then None
    else
      var op := ops[|ops| - 1];
      if op.Approve? && op.edit.Some? then op.edit else LastEdit(ops[..|ops| - 1])
  }

  function Proposal(ops: seq<Op>): Payload {
    if |ops| > 0 && ops[0].Create? then ops[0].payload else map[]
  }

  /** The state an approval and its tool call are in together at every commit point. */
  predicate Paired(row: Row) {
    match row.status
    case PendingReview => row.call == Some(ToolCallStatus.WaitingForApproval)
    case Approved => row.call == Some(ToolCallStatus.WaitingForApproval)
    case Edited => row.call == Some(ToolCallStatus.WaitingForApproval)
    case Rejected => row.call == Some(ToolCallStatus.Denied)
    case Executed => row.call == Some(ToolCallStatus.Completed)
    case Failed => row.call == Some(ToolCallStatus.Failed)
    case _ => false
  }

  function Rank(status: ApprovalStatus): nat {
    match status
    case Proposed => 0
    case PendingReview => 0
    case Edited => 1
    case Approved => 2
    case _ => 3
  }

  predicate IsEdit(op: Op) {
    op.Approve? && op.edit.Some?
  }

  function CountNonEdits(ops: seq<Op>): nat {
    if |ops| == 0 then 0
    else CountNonEdits(ops[..|ops| - 1]) + if IsEdit(ops[|ops| - 1]) then 0 else 1
  }

  // ---- Theorems about every history ----

  lemma {:induction false} ReplayPrefix(ops: seq<Op>)
    requires Replay(ops).Some? && |ops| > 1
    ensures Replay(ops[..|ops| - 1]).Some?
    ensures ops[..|ops| - 1][0] == ops[0]
  {
  }

  /** The audit log alone determines the current status of an approval. */
  lemma {:induction false} AuditReplay(ops: seq<Op>)
    requires Replay(ops).Some?
    ensures |Records(ops)| == |ops|
    ensures StatusFromAudit(Records(ops)) == Some(Replay(ops).value.status)
    decreases |ops|
  {
    var log := Records(ops);
    if |ops| > 1 {
      var init := ops[..|ops| - 1];
      AuditReplay(init);
      assert log[..|log| - 1] == Records(init);
    } else {
      assert log[..0] == [];
    }
  }

  /** The payload an approval would execute with is the reviewers' last word on it, the
      proposal is never overwritten, and a plain approval keeps an earlier edit. */
  lemma {:induction false} PayloadIntegrity(ops: seq<Op>)
    requires Replay(ops).Some?
    ensures FinalPayload(Replay(ops).value) == LastEditOrProposal(ops)
    ensures Replay(ops).value.proposed == Proposal(ops)
    ensures Replay(ops).value.edited == LastEdit(ops)
    decreases |ops|
  {
    if |ops| > 1 {
      ReplayPrefix(ops);
      PayloadIntegrity(ops[..|ops| - 1]);
    } else {
      assert LastEdit(ops[..0]) == None;
    }
  }

  /** Statuses only climb; the one operation that does not climb is editing again. */
  lemma StatusClimbs(row: Row, op: Op)
    requires Allowed(row, op)
    ensures !Terminal(row.status)
    ensures if row.status == ApprovalStatus.Edited && IsEdit(op)
            then After(row, op).status == ApprovalStatus.Edited
            else Rank(row.status) < Rank(After(row, op).status)
  {
  }

  /** After its creation a history has at most two operations that are not edits, and a
      history that has not ended has at most one. */
  lemma {:induction false} HistoryBound(ops: seq<Op>)
    requires Replay(ops).Some?
    ensures CountNonEdits(ops) <= 3
    ensures !Terminal(Replay(ops).value.status) ==> CountNonEdits(ops) <= 2
    ensures CanApprove(Replay(ops).value.status) ==> CountNonEdits(ops) == 1
    decreases |ops|
  {
    if |ops| > 1 {
      HistoryBound(ops[..|ops| - 1]);
    } else {
      assert CountNonEdits(ops[..0]) == 0;
    }
  }

  /** The approval and its tool call never disagree at a commit point. */
  lemma {:induction false} HistoryPaired(ops: seq<Op>)
    requires Replay(ops).Some?
    ensures Paired(Replay(ops).value)
    decreases |ops|
  {
    if |ops| == 1 {
    } else {
      HistoryPaired(ops[..|ops| - 1]);
    }
  }

  /** An executable approval has a human decision as its last word and was never rejected. */
  lemma {:induction false} ExecutableMeansReviewed(ops: seq<Op>)
    requires Replay(ops).Some? && CanExecute(Replay(ops).value.status)
    ensures ops[|ops| - 1].Approve?
    ensures forall i | 0 <= i < |ops| :: !ops[i].Reject? && !ops[i].Finish?
    decreases |ops|
  {
    NothingEndedBefore(ops);
  }

  /** No operation follows a rejection or the end of an execution. */
  lemma {:induction false} NothingEndedBefore(ops: seq<Op>)
    requires Replay(ops).Some?
    ensures forall i | 0 <= i < |ops| - 1 :: !ops[i].Reject? && !ops[i].Finish?
    ensures ops[|ops| - 1].Reject? <==> Replay(ops).value.status == ApprovalStatus.Rejected
    ensures ops[|ops| - 1].Finish? <==>
            Replay(ops).value.status.Executed? || Replay(ops).value.status.Failed?
    decreases |ops|
  {
    if |ops| == 1 {
    } else {
      var init := ops[..|ops| - 1];
      NothingEndedBefore(init);
      assert forall i | 0 <= i < |init| :: init[i] == ops[i];
    }
  }
}
