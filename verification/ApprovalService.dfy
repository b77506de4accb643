/** The objects behind an approval and the service that changes them
    (app/services/approval.py, app/services/audit.py), proved against ApprovalModel. */
module ApprovalService {
  import opened Domain
  import opened ApprovalModel

  datatype RunStatus = Queued | Running | WaitingForApproval | Completed | Failed | Cancelled

  class AgentRun {
    var status: RunStatus

    constructor (status: RunStatus)
      ensures this.status == status
    {
      this.status := status;
    }
  }

  class ToolCall {
    var toolName: string
    var sensitivity: Sensitivity
    var inputPayload: Payload
    var outputPayload: Option<Payload>
    var status: ToolCallStatus
    var errorMessage: Option<string>
    var retryCount: nat

    constructor (toolName: string, sensitivity: Sensitivity, payload: Payload)
      ensures this.toolName == toolName && this.sensitivity == sensitivity && inputPayload == payload
      ensures status == ToolCallStatus.Proposed && outputPayload == None && errorMessage == None && retryCount == 0
    {
      this.toolName, this.sensitivity, inputPayload := toolName, sensitivity, payload;
      outputPayload, status, errorMessage, retryCount := None, ToolCallStatus.Proposed, None, 0;
    }
  }

  class ApprovalRequest {
    const toolName: string
    const proposedPayload: Payload
    const riskReason: string
    const toolCall: ToolCall?
    var editedPayload: Option<Payload>
    var status: ApprovalStatus
    var reviewerId: Option<string>
    var reviewerComment: Option<string>

    constructor (toolName: string, proposedPayload: Payload, riskReason: string, toolCall: ToolCall?)
      ensures this.toolName == toolName && this.proposedPayload == proposedPayload
      ensures this.riskReason == riskReason && this.toolCall == toolCall
      ensures status == ApprovalStatus.PendingReview && editedPayload == None
      ensures reviewerId == None && reviewerComment == None
    {
      this.toolName, this.proposedPayload, this.riskReason := toolName, proposedPayload, riskReason;
      this.toolCall := toolCall;
      editedPayload, status, reviewerId, reviewerComment := None, ApprovalStatus.PendingReview, None, None;
    }

    /** The row this object stands for. */
    function View(): Row
      reads this, toolCall
    {
      Row(toolName, proposedPayload, editedPayload, status, reviewerId,
          if toolCall == null then None else Some(toolCall.status))
    }

    function CallObjects(): set<object> {
      if toolCall == null then {} else {toolCall}
    }
  }

  datatype CallEvent = CallStarted | CallCompleted | CallFailed | GuardrailDenied

  /** One row of the audit log. Records about tool calls keep the statuses before and after. */
  datatype Entry =
    | OnApproval(record: AuditRecord)
    | OnCall(event: CallEvent, actor: string, tool: string, was: ToolCallStatus, now: ToolCallStatus)
    | OnRun(event: CallEvent, actor: string)

  class AuditService {
    var log: seq<Entry>

    constructor ()
      ensures log == []
    {
      log := [];
    }

    /** The log is append-only. */
    method Append(entry: Entry)
      modifies this
      ensures log == old(log) + [entry]
    {
      log := log + [entry];
    }
  }

  datatype Result<+T> = Ok(value: T) | Err(error: ServiceError)
  datatype ServiceError = NotFound | WrongState(status: ApprovalStatus)

  class Service {
    const audit: AuditService
    var approvals: map<nat, ApprovalRequest>

    constructor (audit: AuditService, approvals: map<nat, ApprovalRequest>)
      ensures this.audit == audit && this.approvals == approvals
    {
      this.audit, this.approvals := audit, approvals;
    }

    /** What a request about the approval `id` may change. */
    function Touched(id: nat): set<object>
      reads this
    {
      {audit as object} + if id in approvals then {approvals[id] as object} + approvals[id].CallObjects() else {}
    }

    method CreateRequest(run: AgentRun, toolCall: ToolCall, id: nat, payload: Payload, riskReason: string, agent: string)
      returns (approval: ApprovalRequest)
      requires id !in approvals
      modifies this, audit, run, toolCall
      ensures fresh(approval) && approvals == old(approvals)[id := approval]
      ensures approval.toolCall == toolCall && approval.View() == Created(Create(agent, toolCall.toolName, payload))
      ensures audit.log == old(audit.log) + [OnApproval(CreationRecord(Create(agent, toolCall.toolName, payload)))]
      ensures run.status == RunStatus.WaitingForApproval
      ensures toolCall.toolName == old(toolCall.toolName) && toolCall.inputPayload == old(toolCall.inputPayload)
      ensures toolCall.sensitivity == old(toolCall.sensitivity)
    {
      approval := new ApprovalRequest(toolCall.toolName, payload, riskReason, toolCall);
      approvals := approvals[id := approval];
      toolCall.status := ToolCallStatus.WaitingForApproval;
      run.status := RunStatus.WaitingForApproval;
      audit.Append(OnApproval(AuditRecord(Agent, agent, CreatedEvent, None, approval.status)));
    }

    /** approve(); with a payload it is the edit endpoint. */
    method ApproveRequest(id: nat, reviewer: string, comment: Option<string>, edited: Option<Payload>)
      returns (result: Result<ApprovalRequest>)
      modifies Touched(id)
      ensures id !in approvals ==> result == Err(NotFound) && audit.log == old(audit.log)
      ensures id in approvals ==>
                var approval, was := approvals[id], old(approvals[id].View());
                var op := Approve(reviewer, edited);
                if was.status in {ApprovalStatus.PendingReview, ApprovalStatus.Proposed, ApprovalStatus.Edited} then
                  && result == Ok(approval) && approval.View() == After(was, op)
                  && audit.log == old(audit.log) + [OnApproval(RecordFor(was, op))]
                  && approval.reviewerComment == comment
                else
                  && result == Err(WrongState(was.status)) && approval.View() == was
                  && audit.log == old(audit.log)
    {
      if id !in approvals {
        return Err(NotFound);
      }
      var approval := approvals[id];
      if !CanApprove(approval.status) {
        return Err(WrongState(approval.status));
      }
      var before := approval.status;
      approval.reviewerId, approval.reviewerComment := Some(reviewer), comment;
      var event;
      if edited.Some? {
        approval.editedPayload := edited;
        approval.status := ApprovalStatus.Edited;
        event := EditedEvent;
      } else {
        approval.status := ApprovalStatus.Approved;
        event := ApprovedEvent;
      }
      audit.Append(OnApproval(AuditRecord(Human, reviewer, event, Some(before), approval.status)));
      return Ok(approval);
    }

    method RejectRequest(id: nat, reviewer: string, comment: Option<string>)
      returns (result: Result<ApprovalRequest>)
      modifies Touched(id)
      ensures id !in approvals ==> result == Err(NotFound) && audit.log == old(audit.log)
      ensures id in approvals ==>
                var approval, was := approvals[id], old(approvals[id].View());
                var op := Reject(reviewer);
                if was.status in {ApprovalStatus.PendingReview, ApprovalStatus.Proposed, ApprovalStatus.Approved, ApprovalStatus.Edited} then
                  && result == Ok(approval) && approval.View() == After(was, op)
                  && audit.log == old(audit.log) + [OnApproval(RecordFor(was, op))]
                  && approval.reviewerComment == comment
                else
                  && result == Err(WrongState(was.status)) && approval.View() == was
                  && audit.log == old(audit.log)
    {
      if id !in approvals {
        return Err(NotFound);
      }
      var approval := approvals[id];
      if !CanReject(approval.status) {
        return Err(WrongState(approval.status));
      }
      var before := approval.status;
      approval.status := ApprovalStatus.Rejected;
      approval.reviewerId, approval.reviewerComment := Some(reviewer), comment;
      if approval.toolCall != null {
        approval.toolCall.status := ToolCallStatus.Denied;
      }
      audit.Append(OnApproval(AuditRecord(Human, reviewer, RejectedEvent, Some(before), approval.status)));
      return Ok(approval);
    }

    method MarkExecuted(approval: ApprovalRequest, executor: string) returns (result: Result<()>)
      modifies approval`status, audit
      ensures if old(approval.status) in {ApprovalStatus.Approved, ApprovalStatus.Edited} then
                && result == Ok(()) && approval.status == ApprovalStatus.Executed
                && audit.log == old(audit.log)
                   + [OnApproval(AuditRecord(System, executor, ExecutedEvent, Some(old(approval.status)), ApprovalStatus.Executed))]
              else
                && result == Err(WrongState(old(approval.status))) && approval.status == old(approval.status)
                && audit.log == old(audit.log)
    {
      if !CanExecute(approval.status) {
        return Err(WrongState(approval.status));
      }
      var before := approval.status;
      approval.status := ApprovalStatus.Executed;
      audit.Append(OnApproval(AuditRecord(System, executor, ExecutedEvent, Some(before), approval.status)));
      return Ok(());
    }

    /** Unlike the other operations this one has no guard of its own. */
    method MarkFailed(approval: ApprovalRequest, executor: string)
      modifies approval`status, audit
      ensures approval.status == ApprovalStatus.Failed
      ensures audit.log == old(audit.log)
                + [OnApproval(AuditRecord(System, executor, FailedEvent, Some(old(approval.status)), ApprovalStatus.Failed))]
    {
      var before := approval.status;
      approval.status := ApprovalStatus.Failed;
      audit.Append(OnApproval(AuditRecord(System, executor, FailedEvent, Some(before), approval.status)));
    }
  }
}
