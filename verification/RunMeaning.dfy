/** What a refresh of app/services/agent_run_summary.py tells of a run, by what is in it. */
module RunMeaning {
  import opened Domain
  import opened ApprovalService
  import opened RunSummary

  // ---- What there is in a run ----

  predicate Open(status: ApprovalStatus) {
    status in [ApprovalStatus.Proposed, ApprovalStatus.PendingReview, ApprovalStatus.Approved, ApprovalStatus.Edited]
  }

  predicate SomeOpen(run: RunRecord) {
    exists i :: 0 <= i < |run.approvals| && Open(run.approvals[i])
  }

  predicate SomeApproval(run: RunRecord, status: ApprovalStatus) {
    exists i :: 0 <= i < |run.approvals| && run.approvals[i] == status
  }

  predicate SomeCall(run: RunRecord, status: ToolCallStatus) {
    exists i :: 0 <= i < |run.calls| && run.calls[i].status == status
  }

  predicate Sent(call: CallRow) {
    call.status == ToolCallStatus.Completed && call.tool in ["send_email", "create_crm_note", "export_report"]
  }

  predicate SomeSent(run: RunRecord) {
    exists i :: 0 <= i < |run.calls| && Sent(run.calls[i])
  }

  // ---- The status ----

  /** A cancelled run stays so; a run with a running call runs; one with an open approval
      waits; one with a failure has failed; any other is completed. */
  lemma DerivedMeans(run: RunRecord, now: nat)
    ensures var status := Refreshed(run, now).status;
            var cancelled, running := run.status == RunStatus.Cancelled, SomeCall(run, ToolCallStatus.Running);
            var failed := SomeCall(run, ToolCallStatus.Failed) || SomeApproval(run, ApprovalStatus.Failed);
            && (status == RunStatus.Cancelled <==> cancelled)
            && (status == RunStatus.Running <==> !cancelled && running)
            && (status == RunStatus.WaitingForApproval <==> !cancelled && !running && SomeOpen(run))
            && (status == RunStatus.Failed <==> !cancelled && !running && !SomeOpen(run) && failed)
            && (status == RunStatus.Completed <==> !cancelled && !running && !SomeOpen(run) && !failed)
  {
    OpenIsWaiting(run);
  }

  lemma OpenIsWaiting(run: RunRecord)
    ensures HasWaiting(run.approvals) <==> SomeOpen(run)
  {
    assert forall i | 0 <= i < |run.approvals| :: Waiting(run.approvals[i]) <==> Open(run.approvals[i]);
  }

  /** The run is marked completed once, when it first ends, and keeps everything else. */
  lemma RefreshedMeans(run: RunRecord, now: nat)
    ensures var after := Refreshed(run, now);
            && after.calls == run.calls && after.approvals == run.approvals && after.kept == run.kept
            && after.output == Some(BuildOutput(run))
            && (run.completedAt.Some? ==> after.completedAt == run.completedAt)
            && (run.completedAt.None? ==>
                  after.completedAt == if after.status in [RunStatus.Completed, RunStatus.Failed, RunStatus.Cancelled] then Some(now)
                                       else None)
  {
  }

  // ---- What is shown ----

  function Places(calls: seq<CallRow>, n: nat): seq<nat>
    requires n <= |calls|
  {
    if n == 0 then [] else if Sent(calls[n - 1]) then Places(calls, n - 1) + [n - 1] else Places(calls, n - 1)
  }

  /** These are the positions of the completed deliveries, and this is what stands there. */
  ghost predicate DeliveredAt(calls: seq<CallRow>, at: seq<nat>, deliveries: seq<CallRow>) {
    && |deliveries| == |at| && (forall i, j | 0 <= i < j < |at| :: at[i] < at[j])
    && (forall i :: i in at <==> 0 <= i < |calls| && Sent(calls[i]))
    && (forall j | 0 <= j < |at| :: at[j] < |calls| && deliveries[j] == calls[at[j]])
  }

  lemma {:induction false} DeliveriesMore(calls: seq<CallRow>, call: CallRow)
    ensures Deliveries(calls + [call]) == Deliveries(calls) + if Sent(call) then [call] else []
  {
    if |calls| == 0 {
      assert (calls + [call])[1..] == [];
    } else {
      DeliveriesMore(calls[1..], call);
      assert (calls + [call])[1..] == calls[1..] + [call];
    }
  }

  lemma DeliveredMore(calls: seq<CallRow>, call: CallRow, at: seq<nat>, deliveries: seq<CallRow>)
    requires DeliveredAt(calls, at, deliveries)
    ensures if Sent(call) then DeliveredAt(calls + [call], at + [|calls|], deliveries + [call])
            else DeliveredAt(calls + [call], at, deliveries)
  {
    forall j | 0 <= j < |at|
      ensures at[j] < |calls| && (calls + [call])[at[j]] == calls[at[j]]
    {
    }
    forall i
      ensures i in at + [|calls|] <==> i in at || i == |calls|
    {
    }
  }

  /** The deliveries are the completed messages, notes and reports, in the order of the calls. */
  lemma {:induction false} DeliveriesMean(calls: seq<CallRow>, n: nat)
    requires n <= |calls|
    ensures DeliveredAt(calls[..n], Places(calls, n), Deliveries(calls[..n]))
  {
    if n == 0 {
    } else {
      DeliveriesMean(calls, n - 1);
      assert calls[..n] == calls[..n - 1] + [calls[n - 1]];
      DeliveriesMore(calls[..n - 1], calls[n - 1]);
      DeliveredMore(calls[..n - 1], calls[n - 1], Places(calls, n - 1), Deliveries(calls[..n - 1]));
    }
  }

  lemma SentIffDelivery(run: RunRecord)
    ensures HasDelivery(run.calls) <==> SomeSent(run)
  {
    assert forall i | 0 <= i < |run.calls| :: IsDelivery(run.calls[i]) <==> Sent(run.calls[i]);
  }

  lemma {:induction false} FailedCount(calls: seq<CallRow>)
    ensures CountFailed(calls) > 0 <==>
              exists i :: 0 <= i < |calls| && (calls[i].status.Failed? || calls[i].status.Denied?)
  {
    if |calls| == 0 {
    } else {
      FailedCount(calls[1..]);
      assert calls == [calls[0]] + calls[1..];
    }
  }

  /** The numbers count what they say. */
  lemma {:induction false} CountsMore(calls: seq<CallRow>, call: CallRow)
    ensures CountCompleted([]) == 0 && CountFailed([]) == 0
    ensures CountCompleted(calls + [call]) == CountCompleted(calls) + if call.status == ToolCallStatus.Completed then 1 else 0
    ensures CountFailed(calls + [call])
            == CountFailed(calls) + if call.status in [ToolCallStatus.Failed, ToolCallStatus.Denied] then 1 else 0
  {
    if |calls| == 0 {
      assert (calls + [call])[1..] == [];
    } else {
      CountsMore(calls[1..], call);
      assert (calls + [call])[1..] == calls[1..] + [call];
    }
  }

  lemma {:induction false} ApprovalCountsMore(approvals: seq<ApprovalStatus>, status: ApprovalStatus)
    ensures CountWaiting([]) == 0 && CountStatus([], ApprovalStatus.Rejected) == 0
    ensures CountWaiting(approvals + [status]) == CountWaiting(approvals) + if Open(status) then 1 else 0
    ensures CountStatus(approvals + [status], ApprovalStatus.Rejected)
            == CountStatus(approvals, ApprovalStatus.Rejected) + if status == ApprovalStatus.Rejected then 1 else 0
  {
    if |approvals| == 0 {
      assert (approvals + [status])[1..] == [];
    } else {
      ApprovalCountsMore(approvals[1..], status);
      assert (approvals + [status])[1..] == approvals[1..] + [status];
    }
  }

  /** What the output says of the numbers is what is counted. */
  lemma OutputMeans(run: RunRecord)
    ensures var output := BuildOutput(run);
            && output.kept == run.kept && output.shownStatus == run.status
            && output.actions == run.calls && output.approvals == run.approvals
            && output.deliveries == Deliveries(run.calls)
            && output.counts.toolCalls == |run.calls| && output.counts.deliveries == |output.deliveries|
            && output.counts.completedActions == CountCompleted(run.calls)
            && output.counts.failedActions == CountFailed(run.calls)
            && output.counts.pendingApprovals == CountWaiting(run.approvals)
            && output.counts.rejectedApprovals == CountStatus(run.approvals, ApprovalStatus.Rejected)
  {
  }

  /** The summary speaks of the first of these that there is: an open approval, a delivery, a
      rejection, a failure, a completed call. */
  lemma SummaryMeans(run: RunRecord)
    ensures var summary := BuildOutput(run).summary;
            var settled, rejected := !SomeOpen(run) && !SomeSent(run), SomeApproval(run, ApprovalStatus.Rejected);
            var failed := SomeCall(run, ToolCallStatus.Failed) || SomeCall(run, ToolCallStatus.Denied);
            && (summary.AwaitingReview? <==> SomeOpen(run))
            && (summary.Delivered? <==> !SomeOpen(run) && SomeSent(run))
            && (summary.Delivered? ==> summary.tools == ToolsOf(Deliveries(run.calls)))
            && (summary.OnlyRejected? <==> settled && rejected)
            && (summary.SomeFailed? <==> settled && !rejected && failed)
            && (summary.SafeActions? <==> settled && !rejected && !failed && CountCompleted(run.calls) > 0)
            && (summary.SafeActions? ==> summary.completed == CountCompleted(run.calls))
            && (summary.NothingRan? <==> settled && !rejected && !failed && CountCompleted(run.calls) == 0)
  {
    OpenIsWaiting(run);
    SentIffDelivery(run);
    WaitingCount(run.approvals);
    StatusCount(run.approvals, ApprovalStatus.Rejected);
    DeliveryCount(run.calls);
    FailedCount(run.calls);
  }

  predicate DraftAt(calls: seq<CallRow>, i: nat) {
    i < |calls| && calls[i].tool == "draft_email_response" && calls[i].draft.Some?
  }

  lemma {:induction false} FirstDraft(calls: seq<CallRow>) returns (i: nat)
    ensures DraftIn(calls).Some? ==> DraftAt(calls, i) && DraftIn(calls) == calls[i].draft && forall j: nat | j < i :: !DraftAt(calls, j)
    ensures DraftIn(calls).None? ==> forall j: nat :: !DraftAt(calls, j)
  {
    i := 0;
    if |calls| > 0 && !DraftAt(calls, 0) {
      var behind := FirstDraft(calls[1..]);
      i := behind + 1;
      forall j: nat | 0 < j
        ensures DraftAt(calls, j) <==> DraftAt(calls[1..], j - 1)
      {
      }
    }
  }

  /** A draft once shown stays; otherwise the first that a drafting call offers is shown. */
  lemma DraftMeans(run: RunRecord) returns (i: nat)
    ensures var draft := BuildOutput(run).draft;
            if run.output.Some? && run.output.value.draft.Some? then draft == run.output.value.draft
            else if draft.Some? then DraftAt(run.calls, i) && draft == run.calls[i].draft && forall j: nat | j < i :: !DraftAt(run.calls, j)
            else forall j: nat :: !DraftAt(run.calls, j)
  {
    i := FirstDraft(run.calls);
  }

  // ---- The ticket ----

  /** A waiting run makes its ticket wait; a cancelled one sends it back to triage; a completed
      one resolves it, unless all that came of it are rejections; any other leaves it open. */
  lemma TicketMeans(run: RunRecord, now: nat)
    ensures var status := Refreshed(run, now).status;
            var ticket := TicketStatusFor(status, BuildOutput(run).counts);
            var unmade := SomeApproval(run, ApprovalStatus.Rejected) && !SomeSent(run);
            && (status == RunStatus.WaitingForApproval ==> ticket == TicketWaiting)
            && (status == RunStatus.Cancelled ==> ticket == Triaged)
            && (status == RunStatus.Completed ==> ticket == if unmade then InProgress else Resolved)
            && (status == RunStatus.Failed || status == RunStatus.Running ==> ticket == InProgress)
  {
    SentIffDelivery(run);
    StatusCount(run.approvals, ApprovalStatus.Rejected);
    DeliveryCount(run.calls);
  }

  predicate TakesText(fields: Payload, key: string, was: string, now: string) {
    now == if key in fields && fields[key].Str? && fields[key].s != "" then fields[key].s else was
  }

  /** The ticket takes intent, priority, entities and issue type from what the run kept, where
      it kept them. */
  lemma SyncedMeans(ticket: TicketRecord, status: RunStatus, output: Output)
    ensures var after := Synced(ticket, status, output); var kept := output.kept;
            && after.status == TicketStatusFor(status, output.counts)
            && TakesText(kept, "intent", ticket.intent, after.intent)
            && TakesText(kept, "priority", ticket.priority, after.priority)
            && if "entities" in kept && kept["entities"].Obj?
               then after.entities == kept["entities"].fields
                    && TakesText(kept["entities"].fields, "issue_type", ticket.issueType, after.issueType)
               else after.entities == ticket.entities && after.issueType == ticket.issueType
  {
  }
}
