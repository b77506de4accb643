/** ToolExecutor of app/tools/executor.py: what its calls do. */
module ToolExecutor {
  import opened Domain
  import opened Policy
  import opened ApprovalModel
  import opened ApprovalService
  import opened Retry

  /** A handler invocation: the only effect that reaches the outside world. */
  datatype Invocation = Invocation(tool: string, payload: Payload)

  datatype ExecutionError =
    | LockTimeout
    | ApprovalNotFound
    | NotExecutable(status: ApprovalStatus)
    | NoToolCall
    | ToolNotRegistered(tool: string)
    | ToolBlocked
    | ApprovalRequiredFirst

  datatype Execution =
    | Ran(status: ToolCallStatus)
    | Asked(approval: nat)
    | Refused
    | Raised(error: ExecutionError)

  /** Handlers are foreign: what each attempt at one would come to. */
  type Script = nat -> Attempt<Payload>

  function Repeat(invocation: Invocation, times: nat): (r: seq<Invocation>)
    ensures |r| == times && forall i | 0 <= i < times :: r[i] == invocation
  {
    seq(times, i => invocation)
  }

  /** What running a tool call comes to: the payload is validated first, and a payload that
      does not validate never reaches the handler. */
  function CallOutcome(policy: RetryPolicy, definition: ToolDefinition, payload: Payload, script: Script): Option<Retry.Outcome<Payload>> {
    if definition.accepts(payload) then Some(Expected(policy, script, 0)) else None
  }

  predicate Successful(outcome: Option<Retry.Outcome<Payload>>) {
    outcome.Some? && outcome.value.Succeeded?
  }

  function Attempts(outcome: Option<Retry.Outcome<Payload>>): nat {
    match outcome
    case Some(run) => run.attempts
    case None => 0
  }

  /** The records of a tool call that ran. */
  function CallRecords(actor: string, tool: string, was: ToolCallStatus, successful: bool): seq<Entry> {
    [OnCall(CallStarted, actor, tool, was, ToolCallStatus.Running),
     if successful then OnCall(CallCompleted, actor, tool, was, ToolCallStatus.Completed)
     else OnCall(CallFailed, actor, tool, was, ToolCallStatus.Failed)]
  }

  function DenialRecord(actor: string, tool: string): Entry {
    OnCall(GuardrailDenied, actor, tool, ToolCallStatus.Proposed, ToolCallStatus.Denied)
  }

  class Executor {
    const registry: Registry
    const policy: RetryPolicy
    const audit: AuditService
    var catalog: Catalog
    /** Every handler invocation so far. */
    var invoked: seq<Invocation>

    constructor (registry: Registry, policy: RetryPolicy, audit: AuditService, catalog: Catalog)
      ensures this.registry == registry && this.policy == policy && this.audit == audit
      ensures this.catalog == catalog && invoked == []
    {
      this.registry, this.policy, this.audit, this.catalog := registry, policy, audit, catalog;
      invoked := [];
    }

    /** _execute_tool_call, with the definition registered as `handler`. */
    method ExecuteToolCall(handler: string, definition: ToolDefinition, call: ToolCall, payload: Payload, script: Script, actor: string)
      modifies this`invoked, call, audit
      ensures call.toolName == old(call.toolName) && call.sensitivity == old(call.sensitivity)
      ensures call.inputPayload == payload
      ensures var outcome := CallOutcome(policy, definition, payload, script);
              && invoked == old(invoked) + Repeat(Invocation(handler, payload), Attempts(outcome))
              && call.status == (if Successful(outcome) then ToolCallStatus.Completed else ToolCallStatus.Failed)
              && call.outputPayload == (if Successful(outcome) then Some(outcome.value.value) else old(call.outputPayload))
              && call.retryCount == (if outcome.Some? then outcome.value.attempts - 1 else old(call.retryCount))
              && (if Successful(outcome) then call.errorMessage == old(call.errorMessage)
                  else call.errorMessage.Some? && (outcome.Some? ==> call.errorMessage == Some(outcome.value.lastError)))
              && audit.log == old(audit.log)
                   + [OnCall(CallStarted, actor, call.toolName, old(call.status), ToolCallStatus.Running),
                      if Successful(outcome) then OnCall(CallCompleted, actor, call.toolName, old(call.status), ToolCallStatus.Completed)
                      else OnCall(CallFailed, actor, call.toolName, old(call.status), ToolCallStatus.Failed)]
    {
      var before := call.status;
      call.status := ToolCallStatus.Running;
      call.inputPayload := payload;
      audit.Append(OnCall(CallStarted, actor, call.toolName, before, call.status));
      if definition.accepts(payload) {
        var outcome, slept := Run(policy, script);
        invoked := invoked + Repeat(Invocation(handler, payload), outcome.attempts);
        call.retryCount := outcome.attempts - 1;
        match outcome {
          case Succeeded(output, _) =>
            call.status := ToolCallStatus.Completed;
            call.outputPayload := Some(output);
            audit.Append(OnCall(CallCompleted, actor, call.toolName, before, call.status));
          case Exhausted(_, error) =>
            call.status := ToolCallStatus.Failed;
            call.errorMessage := Some(error);
            audit.Append(OnCall(CallFailed, actor, call.toolName, before, call.status));
        }
      } else {
        call.status := ToolCallStatus.Failed;
        call.errorMessage := Some("validation error");
        audit.Append(OnCall(CallFailed, actor, call.toolName, before, call.status));
      }
    }

    /** execute_approved, from inside its request: `gotLock` is whether the Redis lock was
        obtained. Either nothing at all happens, or the approved payload is handed to the
        handler and the approval, its tool call and the audit log tell how that ended. */
    method ExecuteApproved(service: Service, id: nat, gotLock: bool, script: Script, actor: string) returns (result: Execution)
      requires service.audit == audit
      modifies this`invoked, service.Touched(id)
      ensures !gotLock ==> result == Execution.Raised(LockTimeout)
      ensures gotLock && id !in service.approvals ==> result == Execution.Raised(ApprovalNotFound)
      ensures result.Raised? ==>
                && invoked == old(invoked) && audit.log == old(audit.log)
                && unchanged(service.Touched(id))
      ensures gotLock && id in service.approvals ==>
                var approval, was := service.approvals[id], old(service.approvals[id].View());
                if was.status !in {ApprovalStatus.Approved, ApprovalStatus.Edited} then result == Execution.Raised(NotExecutable(was.status))
                else if was.call.None? then result == Execution.Raised(NoToolCall)
                else if was.toolName !in registry then result == Execution.Raised(ToolNotRegistered(was.toolName))
                else
                  var outcome := CallOutcome(policy, registry[was.toolName], FinalPayload(was), script);
                  var op := Finish(actor, Successful(outcome));
                  && result == Ran(approval.toolCall.status)
                  && approval.View() == After(was, op)
                  && invoked == old(invoked)
                       + Repeat(Invocation(was.toolName, FinalPayload(was)), Attempts(outcome))
                  && audit.log == old(audit.log)
                       + CallRecords(actor, approval.toolCall.toolName, was.call.value, Successful(outcome))
                       + [OnApproval(RecordFor(was, op))]
    {
      if !gotLock {
        return Execution.Raised(LockTimeout);
      }
      if id !in service.approvals {
        return Execution.Raised(ApprovalNotFound);
      }
      var approval := service.approvals[id];
      if !CanExecute(approval.status) {
        return Execution.Raised(NotExecutable(approval.status));
      }
      if approval.toolCall == null {
        return Execution.Raised(NoToolCall);
      }
      if approval.toolName !in registry {
        return Execution.Raised(ToolNotRegistered(approval.toolName));
      }
      var payload := FinalPayload(approval.View());
      ExecuteToolCall(approval.toolName, registry[approval.toolName], approval.toolCall, payload, script, actor);
      if approval.toolCall.status == ToolCallStatus.Completed {
        var marked := service.MarkExecuted(approval, actor);
      } else {
        service.MarkFailed(approval, actor);
      }
      return Ran(approval.toolCall.status);
    }

    /** execute(): the handler is reached only where the policy allows the call; a call that
        needs approval leaves with a pending approval or is refused; a tool nobody
        registered leaves no tool call at all. */
    method Execute(service: Service, run: AgentRun, id: nat, tool: string, payload: Payload,
                   script: Script, actor: string, requireApproval: bool)
      returns (result: Execution, call: ToolCall?)
      requires service.audit == audit && id !in service.approvals
      modifies this`invoked, service, audit, run
      ensures var decision := Decide(registry, old(catalog), tool, payload);
              && (call == null <==> tool !in registry)
              && (call != null ==>
                    && fresh(call) && call.toolName == tool && call.inputPayload == payload
                    && call.sensitivity == EffectiveSensitivity(registry, old(catalog), tool))
              && (decision.action != Allow ==> invoked == old(invoked))
              && run.status == (if decision.action == RequestApproval && requireApproval
                                then RunStatus.WaitingForApproval else old(run.status))
              && match decision.action
                 case Deny =>
                   && service.approvals == old(service.approvals)
                   && (tool !in registry ==>
                         && result == Execution.Raised(ToolNotRegistered(tool))
                         && audit.log == old(audit.log) + [OnRun(GuardrailDenied, actor)])
                   && (tool in registry ==>
                         && call.status == ToolCallStatus.Denied
                         && audit.log == old(audit.log) + [DenialRecord(actor, tool)]
                         && result == if decision.sensitivity == Some(Blocked) then Execution.Raised(ToolBlocked) else Refused)
                 case RequestApproval =>
                   if requireApproval then
                     && result == Asked(id) && id in service.approvals
                     && service.approvals == old(service.approvals)[id := service.approvals[id]]
                     && service.approvals[id].toolCall == call
                     && service.approvals[id].View() == Created(Create(actor, tool, payload))
                     && audit.log == old(audit.log) + [OnApproval(CreationRecord(Create(actor, tool, payload)))]
                   else
                     && result == Execution.Raised(ApprovalRequiredFirst) && call.status == ToolCallStatus.Denied
                     && service.approvals == old(service.approvals)
                     && audit.log == old(audit.log) + [DenialRecord(actor, tool)]
                 case Allow =>
                   var outcome := CallOutcome(policy, registry[tool], payload, script);
                   && service.approvals == old(service.approvals)
                   && result == Ran(call.status)
                   && call.status == (if Successful(outcome) then ToolCallStatus.Completed else ToolCallStatus.Failed)
                   && invoked == old(invoked) + Repeat(Invocation(tool, payload), Attempts(outcome))
                   && audit.log == old(audit.log)
                        + CallRecords(actor, tool, ToolCallStatus.Proposed, Successful(outcome))
    {
      var decision := Decide(registry, catalog, tool, payload);
      if tool !in registry {
        audit.Append(OnRun(GuardrailDenied, actor));
        return Execution.Raised(ToolNotRegistered(tool)), null;
      }
      var sensitivity :=
        if decision.sensitivity.Some? then decision.sensitivity.value else registry[tool].sensitivity;
      var toolCall := new ToolCall(tool, sensitivity, payload);
      call := toolCall;
      match decision.action {
        case Deny =>
          DenyToolCall(toolCall, actor);
          result := if decision.sensitivity == Some(Blocked) then Execution.Raised(ToolBlocked) else Refused;
        case RequestApproval =>
          if requireApproval {
            var approval := service.CreateRequest(run, toolCall, id, payload, "approval required", actor);
            result := Asked(id);
          } else {
            DenyToolCall(toolCall, actor);
            result := Execution.Raised(ApprovalRequiredFirst);
          }
        case Allow =>
          ExecuteToolCall(tool, registry[tool], toolCall, payload, script, actor);
          result := Ran(toolCall.status);
      }
    }

    /** _deny_tool_call, on a tool call just proposed. */
    method DenyToolCall(call: ToolCall, actor: string)
      requires call.status == ToolCallStatus.Proposed
      modifies call, audit
      ensures call.status == ToolCallStatus.Denied && call.errorMessage.Some?
      ensures call.sensitivity == old(call.sensitivity)
      ensures call.toolName == old(call.toolName) && call.inputPayload == old(call.inputPayload)
      ensures audit.log == old(audit.log)
                           + [OnCall(GuardrailDenied, actor, call.toolName, ToolCallStatus.Proposed, ToolCallStatus.Denied)]
    {
      call.status := ToolCallStatus.Denied;
      call.errorMessage := Some("denied by policy");
      audit.Append(OnCall(GuardrailDenied, actor, call.toolName, ToolCallStatus.Proposed, call.status));
    }
  }

  /** A handler that is never called cannot make an approval executed, and one that is called
      is called at most as often as the retry policy allows. */
  lemma InvocationsBounded(policy: RetryPolicy, definition: ToolDefinition, payload: Payload, script: Script)
    ensures Attempts(CallOutcome(policy, definition, payload, script)) <= policy.Limit()
    ensures Attempts(CallOutcome(policy, definition, payload, script)) == 0 <==> !definition.accepts(payload)
    ensures Successful(CallOutcome(policy, definition, payload, script)) <==>
              definition.accepts(payload) && exists i: nat :: i < policy.Limit() && script(i).Returned?
  {
    RunMeaning(policy, script, 0);
  }
}
