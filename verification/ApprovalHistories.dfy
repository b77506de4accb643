/** Which histories an approval can have, and what each comes to, told by the operations. */
module ApprovalHistories {
  import opened Domain
  import opened ApprovalModel

  /** A person can approve or edit after the creation and after an edit, and reject as long as
      nothing has ended; execution follows an approval or an edit. */
  predicate MayFollow(before: Op, op: Op) {
    match op
    case Create(_, _, _) => false
    case Approve(_, _) => before.Create? || (before.Approve? && before.edit.Some?)
    case Reject(_) => before.Create? || before.Approve?
    case Finish(_, _) => before.Approve?
  }

  predicate MayFollowAt(ops: seq<Op>, i: int) {
    0 < i < |ops| && MayFollow(ops[i - 1], ops[i])
  }

  predicate IsHistory(ops: seq<Op>) {
    |ops| > 0 && ops[0].Create? && forall i | 0 < i < |ops| :: MayFollowAt(ops, i)
  }

  function StatusAfter(op: Op): ApprovalStatus {
    match op
    case Create(_, _, _) => ApprovalStatus.PendingReview
    case Approve(_, Some(_)) => ApprovalStatus.Edited
    case Approve(_, None) => ApprovalStatus.Approved
    case Reject(_) => ApprovalStatus.Rejected
    case Finish(_, true) => ApprovalStatus.Executed
    case Finish(_, false) => ApprovalStatus.Failed
  }

  function CallAfter(op: Op): ToolCallStatus {
    match op
    case Reject(_) => ToolCallStatus.Denied
    case Finish(_, true) => ToolCallStatus.Completed
    case Finish(_, false) => ToolCallStatus.Failed
    case _ => ToolCallStatus.WaitingForApproval
  }

  /** Who reviewed last. */
  function LastReviewer(ops: seq<Op>): Option<string> {
    if |ops| == 0 then None
    else
      match ops[|ops| - 1]
      case Approve(who, _) => Some(who)
      case Reject(who) => Some(who)
      case _ => LastReviewer(ops[..|ops| - 1])
  }

  /** The row a history leads to. */
  function RowOf(ops: seq<Op>): Row
    requires |ops| > 0 && ops[0].Create?
  {
    var last := ops[|ops| - 1];
    Row(ops[0].tool, ops[0].payload, LastEdit(ops), StatusAfter(last), LastReviewer(ops), Some(CallAfter(last)))
  }

  lemma HistoryFront(ops: seq<Op>)
    requires |ops| > 1
    ensures IsHistory(ops) <==> IsHistory(ops[..|ops| - 1]) && MayFollow(ops[|ops| - 2], ops[|ops| - 1])
  {
    var front := ops[..|ops| - 1];
    if IsHistory(front) && MayFollow(ops[|ops| - 2], ops[|ops| - 1]) {
      forall i | 0 < i < |ops|
        ensures MayFollowAt(ops, i)
      {
        assert i < |front| ==> MayFollowAt(front, i);
      }
    }
    if IsHistory(ops) {
      assert MayFollowAt(ops, |ops| - 1);
      forall i | 0 < i < |front|
        ensures MayFollowAt(front, i)
      {
        assert MayFollowAt(ops, i);
      }
    }
  }

  lemma {:induction false} ReplayIs(ops: seq<Op>)
    ensures Replay(ops).Some? <==> IsHistory(ops)
    ensures IsHistory(ops) ==> Replay(ops) == Some(RowOf(ops))
    decreases |ops|
  {
    if |ops| == 0 {
    } else if |ops| == 1 {
      assert LastEdit(ops[..0]) == None && LastReviewer(ops[..0]) == None;
    } else {
      ReplayIs(ops[..|ops| - 1]);
      HistoryFront(ops);
    }
  }

  /** The histories are exactly those in which each operation may follow the one before, and
      the row is what the first, the last, the last edit and the last review say. */
  lemma HistoriesAre(ops: seq<Op>)
    ensures Replay(ops).Some? <==> IsHistory(ops)
    ensures IsHistory(ops) ==> Replay(ops) == Some(RowOf(ops))
  {
    ReplayIs(ops);
  }

  /** What has been approved or edited can be executed, what has not ended can be rejected,
      and what is pending or edited can be approved and edited. */
  lemma NextAllowed(ops: seq<Op>, op: Op)
    requires Replay(ops).Some?
    ensures Replay(ops + [op]).Some? <==> MayFollow(ops[|ops| - 1], op)
  {
    ReplayIs(ops);
    ReplayIs(ops + [op]);
    HistoryFront(ops + [op]);
    assert (ops + [op])[..|ops|] == ops;
  }

  /** The audit record of an operation, by what came before it. */
  function RecordOf(before: Option<Op>, op: Op): AuditRecord {
    var was := if before.Some? then Some(StatusAfter(before.value)) else None;
    match op
    case Create(agent, _, _) => AuditRecord(Agent, agent, CreatedEvent, None, ApprovalStatus.PendingReview)
    case Approve(who, Some(_)) => AuditRecord(Human, who, EditedEvent, was, ApprovalStatus.Edited)
    case Approve(who, None) => AuditRecord(Human, who, ApprovedEvent, was, ApprovalStatus.Approved)
    case Reject(who) => AuditRecord(Human, who, RejectedEvent, was, ApprovalStatus.Rejected)
    case Finish(who, true) => AuditRecord(System, who, ExecutedEvent, was, ApprovalStatus.Executed)
    case Finish(who, false) => AuditRecord(System, who, FailedEvent, was, ApprovalStatus.Failed)
  }

  function Before(ops: seq<Op>, i: nat): Option<Op>
    requires i <= |ops|
  {
    if i == 0 then None else Some(ops[i - 1])
  }

  /** Each operation leaves one record, which says who did what, and names the statuses around
      it. */
  lemma {:induction false} RecordsAre(ops: seq<Op>)
    requires Replay(ops).Some?
    ensures |Records(ops)| == |ops|
    ensures forall i | 0 <= i < |ops| :: Records(ops)[i] == RecordOf(Before(ops, i), ops[i])
    decreases |ops|
  {
    if |ops| == 1 {
    } else {
      var init := ops[..|ops| - 1];
      ReplayIs(init);
      RecordsAre(init);
      forall i | 0 <= i < |ops|
        ensures Records(ops)[i] == RecordOf(Before(ops, i), ops[i])
      {
        if i < |init| {
          assert Records(ops)[i] == Records(init)[i] && Before(ops, i) == Before(init, i);
        }
      }
    }
  }

  /** What has ended is what nothing can be done with any more. */
  lemma TerminalMeans(row: Row)
    ensures Terminal(row.status) <==> forall op :: !Allowed(row, op)
  {
    if !Terminal(row.status) {
      assert Allowed(row, Reject(""));
    }
  }

  /** A row that is still proposed is treated as one that is pending. */
  lemma ProposedLikePending(row: Row, op: Op)
    ensures var proposed, pending := row.(status := ApprovalStatus.Proposed), row.(status := ApprovalStatus.PendingReview);
            && (Allowed(proposed, op) <==> op.Approve? || op.Reject?)
            && (Allowed(pending, op) <==> op.Approve? || op.Reject?)
            && (Allowed(proposed, op) ==> After(proposed, op) == After(pending, op))
  {
  }
}
