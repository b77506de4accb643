/** Run and ticket status, of app/services/agent_run_summary.py: what a refresh derives from
    the tool calls and approvals of a run. */
module RunSummary {
  import opened Domain
  import opened ApprovalService

  datatype TicketStatus = New | Triaged | InProgress | TicketWaiting | Resolved | Closed

  /** A tool call as a summary sees it; `draft` is the text its output offers as a draft. */
  datatype CallRow = CallRow(tool: string, status: ToolCallStatus, draft: Option<string>)

  datatype Counts = Counts(
    toolCalls: nat,
    completedActions: nat,
    pendingApprovals: nat,
    rejectedApprovals: nat,
    failedActions: nat,
    deliveries: nat
  )

  datatype Summary =
    | AwaitingReview
    | Delivered(tools: seq<string>)
    | OnlyRejected
    | SomeFailed
    | SafeActions(completed: nat)
    | NothingRan

  /** final_output: `kept` holds the keys that a refresh carries over. */
  datatype Output = Output(
    kept: Payload,
    summary: Summary,
    shownStatus: RunStatus,
    draft: Option<string>,
    actions: seq<CallRow>,
    deliveries: seq<CallRow>,
    approvals: seq<ApprovalStatus>,
    counts: Counts
  )

  /** A run with its tool calls and the statuses of its approvals. */
  datatype RunRecord = RunRecord(
    status: RunStatus,
    calls: seq<CallRow>,
    approvals: seq<ApprovalStatus>,
    kept: Payload,
    output: Option<Output>,
    completedAt: Option<nat>
  )

  datatype TicketRecord = TicketRecord(
    status: TicketStatus,
    intent: string,
    priority: string,
    entities: Payload,
    issueType: string
  )

  // ---- The status of a run ----

  predicate Waiting(status: ApprovalStatus) {
    status.Proposed? || status.PendingReview? || status.Approved? || status.Edited?
  }

  predicate HasCall(calls: seq<CallRow>, status: ToolCallStatus) {
    exists i :: 0 <= i < |calls| && calls[i].status == status
  }

  predicate HasWaiting(approvals: seq<ApprovalStatus>) {
    exists i :: 0 <= i < |approvals| && Waiting(approvals[i])
  }

  predicate HasApproval(approvals: seq<ApprovalStatus>, status: ApprovalStatus) {
    exists i :: 0 <= i < |approvals| && approvals[i] == status
  }

  function DeriveStatus(status: RunStatus, calls: seq<CallRow>, approvals: seq<ApprovalStatus>): RunStatus {
    if status == RunStatus.Cancelled then RunStatus.Cancelled
    else if HasCall(calls, ToolCallStatus.Running) then RunStatus.Running
    else if HasWaiting(approvals) then RunStatus.WaitingForApproval
    else if HasCall(calls, ToolCallStatus.Failed) || HasApproval(approvals, ApprovalStatus.Failed) then RunStatus.Failed
    else RunStatus.Completed
  }

  // ---- What is shown of it ----

  predicate IsDelivery(call: CallRow) {
    call.status.Completed? && (call.tool == "send_email" || call.tool == "create_crm_note" || call.tool == "export_report")
  }

  function Deliveries(calls: seq<CallRow>): seq<CallRow> {
    if |calls| == 0 then []
    else if IsDelivery(calls[0]) then [calls[0]] + Deliveries(calls[1..])
    else Deliveries(calls[1..])
  }

  function CountCompleted(calls: seq<CallRow>): nat {
    if |calls| == 0 then 0 else (if calls[0].status.Completed? then 1 else 0) + CountCompleted(calls[1..])
  }

  function CountFailed(calls: seq<CallRow>): nat {
    if |calls| == 0 then 0
    else (if calls[0].status.Failed? || calls[0].status.Denied? then 1 else 0) + CountFailed(calls[1..])
  }

  function CountWaiting(approvals: seq<ApprovalStatus>): nat {
    if |approvals| == 0 then 0 else (if Waiting(approvals[0]) then 1 else 0) + CountWaiting(approvals[1..])
  }

  function CountStatus(approvals: seq<ApprovalStatus>, status: ApprovalStatus): nat {
    if |approvals| == 0 then 0 else (if approvals[0] == status then 1 else 0) + CountStatus(approvals[1..], status)
  }

  function ToolsOf(calls: seq<CallRow>): seq<string> {
    seq(|calls|, i requires 0 <= i < |calls| => calls[i].tool)
  }

  function CountsOf(calls: seq<CallRow>, approvals: seq<ApprovalStatus>): Counts {
    Counts(|calls|, CountCompleted(calls), CountWaiting(approvals), CountStatus(approvals, ApprovalStatus.Rejected),
           CountFailed(calls), |Deliveries(calls)|)
  }

  function Summarize(counts: Counts, deliveries: seq<CallRow>): Summary {
    if counts.pendingApprovals > 0 then AwaitingReview
    else if |deliveries| > 0 then Delivered(ToolsOf(deliveries))
    else if counts.rejectedApprovals > 0 then OnlyRejected
    else if counts.failedActions > 0 then SomeFailed
    else if counts.completedActions > 0 then SafeActions(counts.completedActions)
    else NothingRan
  }

  function DraftIn(calls: seq<CallRow>): Option<string> {
    if |calls| == 0 then None
    else if calls[0].tool == "draft_email_response" && calls[0].draft.Some? then calls[0].draft
    else DraftIn(calls[1..])
  }

  /** A draft that was found once is kept. */
  function FindDraft(existing: Option<Output>, calls: seq<CallRow>): Option<string> {
    if existing.Some? && existing.value.draft.Some? then existing.value.draft else DraftIn(calls)
  }

  /** build_agent_run_output: the status shown is the one before the refresh. */
  function BuildOutput(run: RunRecord): Output {
    var counts, deliveries := CountsOf(run.calls, run.approvals), Deliveries(run.calls);
    Output(run.kept, Summarize(counts, deliveries), run.status, FindDraft(run.output, run.calls), run.calls, deliveries,
           run.approvals, counts)
  }

  // ---- The ticket ----

  function TicketStatusFor(status: RunStatus, counts: Counts): TicketStatus {
    match status
    case WaitingForApproval => TicketWaiting
    case Completed => if counts.rejectedApprovals > 0 && counts.deliveries == 0 then InProgress else Resolved
    case Cancelled => Triaged
    case _ => InProgress
  }

  function FirstText(fields: Payload, key: string, otherwise: string): string {
    if key in fields && fields[key].Str? && fields[key].s != "" then fields[key].s else otherwise
  }

  function Synced(ticket: TicketRecord, status: RunStatus, output: Output): TicketRecord {
    var kept := output.kept;
    var entities := if "entities" in kept && kept["entities"].Obj? then Some(kept["entities"].fields) else None;
    TicketRecord(
      TicketStatusFor(status, output.counts),
      FirstText(kept, "intent", ticket.intent),
      FirstText(kept, "priority", ticket.priority),
      if entities.Some? then entities.value else ticket.entities,
      if entities.Some? then FirstText(entities.value, "issue_type", ticket.issueType) else ticket.issueType)
  }

  // ---- Refresh ----

  predicate Finished(status: RunStatus) {
    status.Completed? || status.Failed? || status.Cancelled?
  }

  function Refreshed(run: RunRecord, now: nat): RunRecord {
    var status := DeriveStatus(run.status, run.calls, run.approvals);
    run.(status := status, output := Some(BuildOutput(run)),
         completedAt := if Finished(status) && run.completedAt.None? then Some(now) else run.completedAt)
  }

  class Ticket {
    var status: TicketStatus
    var intent: string
    var priority: string
    var entities: Payload
    var issueType: string

    constructor (status: TicketStatus, intent: string, priority: string)
      ensures View() == TicketRecord(status, intent, priority, map[], "")
    {
      this.status, this.intent, this.priority, entities, issueType := status, intent, priority, map[], "";
    }

    function View(): TicketRecord
      reads this
    {
      TicketRecord(status, intent, priority, entities, issueType)
    }
  }

  class Run {
    const ticket: Ticket?
    var status: RunStatus
    var calls: seq<CallRow>
    var approvals: seq<ApprovalStatus>
    var kept: Payload
    var output: Option<Output>
    var completedAt: Option<nat>

    constructor (ticket: Ticket?, kept: Payload)
      ensures this.ticket == ticket && View() == RunRecord(Queued, [], [], kept, None, None)
    {
      this.ticket, this.kept := ticket, kept;
      status, calls, approvals, output, completedAt := Queued, [], [], None, None;
    }

    function View(): RunRecord
      reads this
    {
      RunRecord(status, calls, approvals, kept, output, completedAt)
    }

    function TicketObjects(): set<object> {
      if ticket == null then {} else {ticket}
    }

    /** refresh_agent_run_summary */
    method Refresh(now: nat)
      modifies this`status, this`output, this`completedAt, TicketObjects()
      ensures View() == Refreshed(old(View()), now)
      ensures ticket != null ==> ticket.View() == Synced(old(ticket.View()), status, BuildOutput(old(View())))
    {
      var derived := DeriveStatus(status, calls, approvals);
      var built := BuildOutput(View());
      status := derived;
      output := Some(built);
      if Finished(derived) && completedAt.None? {
        completedAt := Some(now);
      }
      SyncTicket(derived, built);
    }

    /** sync_ticket_from_run */
    method SyncTicket(derived: RunStatus, built: Output)
      modifies TicketObjects()
      ensures ticket != null ==> ticket.View() == Synced(old(ticket.View()), derived, built)
    {
      if ticket == null {
        return;
      }
      ticket.status := TicketStatusFor(derived, built.counts);
      ticket.intent := FirstText(built.kept, "intent", ticket.intent);
      ticket.priority := FirstText(built.kept, "priority", ticket.priority);
      if "entities" in built.kept && built.kept["entities"].Obj? {
        ticket.entities := built.kept["entities"].fields;
        ticket.issueType := FirstText(ticket.entities, "issue_type", ticket.issueType);
      }
    }
  }

  // ---- What a refresh means ----

  lemma {:induction false} WaitingCount(approvals: seq<ApprovalStatus>)
    ensures CountWaiting(approvals) > 0 <==> HasWaiting(approvals)
  {
    if |approvals| == 0 {
    } else {
      WaitingCount(approvals[1..]);
      if HasWaiting(approvals) && !Waiting(approvals[0]) {
        var i :| 0 <= i < |approvals| && Waiting(approvals[i]);
        assert Waiting(approvals[1..][i - 1]);
      }
      if i :| 0 <= i < |approvals[1..]| && Waiting(approvals[1..][i]) {
        assert Waiting(approvals[i + 1]);
      }
    }
  }

  lemma {:induction false} StatusCount(approvals: seq<ApprovalStatus>, status: ApprovalStatus)
    ensures CountStatus(approvals, status) > 0 <==> HasApproval(approvals, status)
  {
    if |approvals| == 0 {
    } else {
      StatusCount(approvals[1..], status);
      if i :| 0 <= i < |approvals| && approvals[i] == status {
        assert i > 0 ==> approvals[1..][i - 1] == status;
      }
      if i :| 0 <= i < |approvals[1..]| && approvals[1..][i] == status {
        assert approvals[i + 1] == status;
      }
    }
  }

  predicate HasDelivery(calls: seq<CallRow>) {
    exists i :: 0 <= i < |calls| && IsDelivery(calls[i])
  }

  lemma {:induction false} DeliveryCount(calls: seq<CallRow>)
    ensures |Deliveries(calls)| > 0 <==> HasDelivery(calls)
  {
    if |calls| == 0 {
    } else {
      DeliveryCount(calls[1..]);
      if i :| 0 <= i < |calls| && IsDelivery(calls[i]) {
        assert i > 0 ==> IsDelivery(calls[1..][i - 1]);
      }
      if i :| 0 <= i < |calls[1..]| && IsDelivery(calls[1..][i]) {
        assert IsDelivery(calls[i + 1]);
      }
    }
  }

  /** A refresh resolves the ticket exactly when the run was not cancelled, no approval waits
      or failed, no tool call runs or failed, and a rejection is made good by a delivery. */
  lemma ResolvedIff(run: RunRecord, ticket: TicketRecord, now: nat)
    ensures Synced(ticket, Refreshed(run, now).status, BuildOutput(run)).status == Resolved <==>
              && run.status != RunStatus.Cancelled
              && !HasWaiting(run.approvals) && !HasApproval(run.approvals, ApprovalStatus.Failed)
              && !HasCall(run.calls, ToolCallStatus.Running) && !HasCall(run.calls, ToolCallStatus.Failed)
              && (HasApproval(run.approvals, ApprovalStatus.Rejected) ==> HasDelivery(run.calls))
  {
    StatusCount(run.approvals, ApprovalStatus.Rejected);
    DeliveryCount(run.calls);
  }

  /** The summary speaks of waiting exactly when an approval waits, and a run that it calls
      rejected leaves its ticket in progress. */
  lemma SummaryAgrees(run: RunRecord, now: nat)
    ensures BuildOutput(run).summary == AwaitingReview <==> HasWaiting(run.approvals)
    ensures Refreshed(run, now).status == RunStatus.WaitingForApproval ==> BuildOutput(run).summary == AwaitingReview
    ensures BuildOutput(run).summary.OnlyRejected? && Refreshed(run, now).status == RunStatus.Completed ==>
              TicketStatusFor(RunStatus.Completed, BuildOutput(run).counts) == InProgress
  {
    WaitingCount(run.approvals);
  }

  /** Refreshing again changes nothing but the status shown in the output, which is one
      refresh behind; the third refresh changes nothing at all. */
  lemma RefreshSettles(run: RunRecord, ticket: TicketRecord, now: nat, later: nat, last: nat)
    ensures var once := Refreshed(run, now);
            var twice := Refreshed(once, later);
            && once.output.value.shownStatus == run.status
            && twice == once.(output := Some(once.output.value.(shownStatus := once.status)))
            && Refreshed(twice, last) == twice
    ensures var once := Refreshed(run, now);
            var synced := Synced(ticket, once.status, BuildOutput(run));
            Synced(synced, Refreshed(once, later).status, BuildOutput(once)) == synced
  {
    var once := Refreshed(run, now);
    assert DeriveStatus(once.status, once.calls, once.approvals) == once.status;
    SyncSettles(ticket, once.status, BuildOutput(run), BuildOutput(once));
  }

  lemma SyncSettles(ticket: TicketRecord, status: RunStatus, output: Output, again: Output)
    requires output.kept == again.kept && output.counts == again.counts
    ensures var synced := Synced(ticket, status, output); Synced(synced, status, again) == synced
  {
  }
}
