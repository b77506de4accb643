/** One run under its approval endpoints of app/api/approvals.py, one after another. */
module RunProgress {
  import opened Domain
  import opened ApprovalModel
  import opened ApprovalService
  import opened RunSummary

  /** A run with its approvals and the tool calls that needed none. */
  datatype Desk = Desk(status: RunStatus, rows: seq<Row>, direct: seq<CallRow>)

  predicate AllPaired(rows: seq<Row>) {
    forall i | 0 <= i < |rows| :: Paired(rows[i])
  }

  function CallOf(row: Row): CallRow
    requires Paired(row)
  {
    CallRow(row.toolName, row.call.value, None)
  }

  function LinkedCalls(rows: seq<Row>): (calls: seq<CallRow>)
    requires AllPaired(rows)
    ensures |calls| == |rows| && forall i | 0 <= i < |rows| :: calls[i] == CallOf(rows[i])
  {
    seq(|rows|, i requires 0 <= i < |rows| => CallOf(rows[i]))
  }

  function Calls(desk: Desk): seq<CallRow>
    requires AllPaired(desk.rows)
  {
    LinkedCalls(desk.rows) + desk.direct
  }

  function Statuses(rows: seq<Row>): (statuses: seq<ApprovalStatus>)
    ensures |statuses| == |rows| && forall i | 0 <= i < |rows| :: statuses[i] == rows[i].status
  {
    seq(|rows|, i requires 0 <= i < |rows| => rows[i].status)
  }

  function Derived(desk: Desk): RunStatus
    requires AllPaired(desk.rows)
  {
    DeriveStatus(desk.status, Calls(desk), Statuses(desk.rows))
  }

  /** An endpoint acts on one approval; `Recheck` is an execution that is refused before it
      touches the approval, which refreshes the run all the same. */
  datatype Request = Act(i: nat, op: Op) | Recheck

  predicate GetsThrough(desk: Desk, request: Request) {
    request.Act? && request.i < |desk.rows| && Allowed(desk.rows[request.i], request.op)
  }

  lemma AfterPaired(row: Row, op: Op)
    requires Paired(row) && Allowed(row, op)
    ensures Paired(After(row, op))
  {
  }

  function Acted(desk: Desk, request: Request): (after: Desk)
    requires AllPaired(desk.rows) && GetsThrough(desk, request)
    ensures AllPaired(after.rows)
  {
    AfterPaired(desk.rows[request.i], request.op);
    desk.(rows := desk.rows[request.i := After(desk.rows[request.i], request.op)])
  }

  function Next(desk: Desk, request: Request): (after: Desk)
    requires AllPaired(desk.rows)
    ensures AllPaired(after.rows) && |after.rows| == |desk.rows|
  {
    if request.Recheck? then desk.(status := Derived(desk))
    else if GetsThrough(desk, request) then
      var acted := Acted(desk, request);
      acted.(status := Derived(acted))
    else desk
  }

  /** A request that is allowed acts on its approval and on no other, and the run is refreshed;
      any other request leaves the desk as it is. */
  lemma NextMeans(desk: Desk, i: nat, op: Op)
    requires AllPaired(desk.rows)
    ensures var after := Next(desk, Act(i, op));
            && after.direct == desk.direct
            && if i < |desk.rows| && Allowed(desk.rows[i], op)
               then after.rows == desk.rows[i := After(desk.rows[i], op)]
                    && after.status == Derived(Desk(desk.status, after.rows, desk.direct))
               else after == desk
  {
  }

  function Walk(desk: Desk, requests: seq<Request>): (after: Desk)
    requires AllPaired(desk.rows)
    ensures AllPaired(after.rows) && |after.rows| == |desk.rows|
  {
    if |requests| == 0 then desk else Next(Walk(desk, requests[..|requests| - 1]), requests[|requests| - 1])
  }

  // ---- Cancellation ----

  /** No request to any approval endpoint brings a cancelled run back. */
  lemma {:induction false} CancelledSticks(desk: Desk, requests: seq<Request>)
    requires AllPaired(desk.rows) && desk.status == RunStatus.Cancelled
    ensures Walk(desk, requests).status == RunStatus.Cancelled
    ensures var end := Walk(desk, requests);
            TicketStatusFor(end.status, CountsOf(Calls(end), Statuses(end.rows))) == Triaged
  {
    if |requests| == 0 {
    } else {
      CancelledSticks(desk, requests[..|requests| - 1]);
    }
  }

  // ---- What the status says ----

  predicate HasRow(rows: seq<Row>, status: ApprovalStatus) {
    exists i :: 0 <= i < |rows| && rows[i].status == status
  }

  predicate HasOpen(rows: seq<Row>) {
    exists i :: 0 <= i < |rows| && !Terminal(rows[i].status)
  }

  predicate HasDelivered(rows: seq<Row>)
    requires AllPaired(rows)
  {
    exists i :: 0 <= i < |rows| && IsDelivery(CallOf(rows[i]))
  }

  lemma LinkedStatus(desk: Desk, status: ToolCallStatus)
    requires AllPaired(desk.rows)
    ensures HasCall(Calls(desk), status) <==>
            HasCall(desk.direct, status) || exists i :: 0 <= i < |desk.rows| && CallOf(desk.rows[i]).status == status
  {
    var n := |desk.rows|;
    if i :| 0 <= i < |desk.direct| && desk.direct[i].status == status {
      assert Calls(desk)[n + i].status == status;
    }
    if i :| 0 <= i < n && CallOf(desk.rows[i]).status == status {
      assert Calls(desk)[i].status == status;
    }
  }

  lemma OpenMeansWaiting(rows: seq<Row>)
    requires AllPaired(rows)
    ensures HasWaiting(Statuses(rows)) <==> HasOpen(rows)
    ensures forall status :: HasApproval(Statuses(rows), status) <==> HasRow(rows, status)
  {
    forall i | 0 <= i < |rows|
      ensures Waiting(Statuses(rows)[i]) <==> !Terminal(rows[i].status)
    {
      assert Paired(rows[i]);
    }
    if i :| 0 <= i < |rows| && !Terminal(rows[i].status) {
      assert Waiting(Statuses(rows)[i]);
    }
    forall status
      ensures HasApproval(Statuses(rows), status) <==> HasRow(rows, status)
    {
      if i :| 0 <= i < |rows| && rows[i].status == status {
        assert Statuses(rows)[i] == status;
      }
    }
  }

  lemma DeliveredRows(desk: Desk)
    requires AllPaired(desk.rows)
    ensures HasDelivery(Calls(desk)) <==> HasDelivered(desk.rows) || HasDelivery(desk.direct)
  {
    var n := |desk.rows|;
    if i :| 0 <= i < |desk.direct| && IsDelivery(desk.direct[i]) {
      assert IsDelivery(Calls(desk)[n + i]);
    }
    if i :| 0 <= i < n && IsDelivery(CallOf(desk.rows[i])) {
      assert IsDelivery(Calls(desk)[i]);
    }
  }

  lemma PairedCalls(rows: seq<Row>, i: nat)
    requires AllPaired(rows) && i < |rows|
    ensures CallOf(rows[i]).status != ToolCallStatus.Running
    ensures CallOf(rows[i]).status == ToolCallStatus.Failed <==> rows[i].status == ApprovalStatus.Failed
  {
    assert Paired(rows[i]);
  }

  /** What the status of a run says about its approvals, while it is not cancelled. */
  lemma StatusMeans(desk: Desk)
    requires AllPaired(desk.rows) && desk.status != RunStatus.Cancelled
    ensures var failed := HasRow(desk.rows, ApprovalStatus.Failed) || HasCall(desk.direct, ToolCallStatus.Failed);
            Derived(desk) == if HasCall(desk.direct, ToolCallStatus.Running) then RunStatus.Running
                             else if HasOpen(desk.rows) then RunStatus.WaitingForApproval
                             else if failed then RunStatus.Failed
                             else RunStatus.Completed
  {
    LinkedStatus(desk, ToolCallStatus.Running);
    LinkedStatus(desk, ToolCallStatus.Failed);
    OpenMeansWaiting(desk.rows);
    forall i | 0 <= i < |desk.rows|
      ensures CallOf(desk.rows[i]).status != ToolCallStatus.Running
      ensures CallOf(desk.rows[i]).status == ToolCallStatus.Failed <==> desk.rows[i].status == ApprovalStatus.Failed
    {
      PairedCalls(desk.rows, i);
    }
  }

  // ---- Progress ----

  predicate HasRecheck(requests: seq<Request>) {
    Recheck in requests
  }

  lemma RecheckLast(requests: seq<Request>)
    requires |requests| > 0
    ensures HasRecheck(requests) <==> HasRecheck(requests[..|requests| - 1]) || requests[|requests| - 1].Recheck?
  {
    assert requests == requests[..|requests| - 1] + [requests[|requests| - 1]];
  }

  /** A run with no open approval stays as it is, whatever the endpoints are asked to do; the
      first recheck brings its status up to date. */
  lemma {:induction false} SettledForever(desk: Desk, requests: seq<Request>)
    requires AllPaired(desk.rows) && !HasOpen(desk.rows)
    ensures Walk(desk, requests) == if HasRecheck(requests) then desk.(status := Derived(desk)) else desk
  {
    if |requests| == 0 {
    } else {
      SettledForever(desk, requests[..|requests| - 1]);
      RecheckLast(requests);
      var request := requests[|requests| - 1];
      if GetsThrough(desk, request) {
        NothingAllowed(desk.rows, request.i, request.op);
      }
      DeriveStable(desk.status, Calls(desk), Statuses(desk.rows));
    }
  }

  lemma NothingAllowed(rows: seq<Row>, i: nat, op: Op)
    requires i < |rows| && !HasOpen(rows)
    ensures !Allowed(rows[i], op)
  {
    assert Terminal(rows[i].status);
  }

  lemma DeriveStable(status: RunStatus, calls: seq<CallRow>, approvals: seq<ApprovalStatus>)
    ensures DeriveStatus(DeriveStatus(status, calls, approvals), calls, approvals) == DeriveStatus(status, calls, approvals)
  {
  }

  /** From the first request on that got through, the status is up to date. */
  lemma {:induction false} StatusStaysDerived(desk: Desk, requests: seq<Request>)
    requires AllPaired(desk.rows) && desk.status == Derived(desk)
    ensures Walk(desk, requests).status == Derived(Walk(desk, requests))
  {
    if |requests| == 0 {
    } else {
      var before := Walk(desk, requests[..|requests| - 1]);
      StatusStaysDerived(desk, requests[..|requests| - 1]);
      var request := requests[|requests| - 1];
      if GetsThrough(before, request) {
        var acted := Acted(before, request);
        DeriveStable(acted.status, Calls(acted), Statuses(acted.rows));
      }
    }
  }

  function NonEditsLeft(status: ApprovalStatus): nat {
    if CanApprove(status) then 2 else if CanExecute(status) then 1 else 0
  }

  function TotalLeft(rows: seq<Row>): nat {
    if |rows| == 0 then 0 else TotalLeft(rows[..|rows| - 1]) + NonEditsLeft(rows[|rows| - 1].status)
  }

  lemma {:induction false} LeftAtMost(rows: seq<Row>)
    ensures TotalLeft(rows) <= 2 * |rows|
  {
    if |rows| == 0 {
    } else {
      LeftAtMost(rows[..|rows| - 1]);
    }
  }

  lemma {:induction false} LeftAfter(rows: seq<Row>, i: nat, row: Row)
    requires i < |rows|
    ensures TotalLeft(rows[i := row]) == TotalLeft(rows) - NonEditsLeft(rows[i].status) + NonEditsLeft(row.status)
  {
    var last := |rows| - 1;
    if i < last {
      LeftAfter(rows[..last], i, row);
      assert rows[i := row][..last] == rows[..last][i := row];
    } else {
      assert rows[i := row][..last] == rows[..last];
    }
  }

  /** How many requests that are not edits got through. */
  function Decisions(desk: Desk, requests: seq<Request>): nat
    requires AllPaired(desk.rows)
  {
    if |requests| == 0 then 0
    else
      var request := requests[|requests| - 1];
      var before := Walk(desk, requests[..|requests| - 1]);
      Decisions(desk, requests[..|requests| - 1]) + if GetsThrough(before, request) && !IsEdit(request.op) then 1 else 0
  }

  /** However many requests come in, at most two for each approval get through, not counting
      edits. */
  lemma {:induction false} DecisionsBounded(desk: Desk, requests: seq<Request>)
    requires AllPaired(desk.rows)
    ensures Decisions(desk, requests) + TotalLeft(Walk(desk, requests).rows) <= TotalLeft(desk.rows) <= 2 * |desk.rows|
  {
    LeftAtMost(desk.rows);
    if |requests| == 0 {
    } else {
      var request := requests[|requests| - 1];
      var before := Walk(desk, requests[..|requests| - 1]);
      DecisionsBounded(desk, requests[..|requests| - 1]);
      if GetsThrough(before, request) {
        var row := before.rows[request.i];
        LeftAfter(before.rows, request.i, After(row, request.op));
      }
    }
  }

  // ---- The counts add up ----

  function CountRows(rows: seq<Row>, status: ApprovalStatus): nat {
    if |rows| == 0 then 0 else (if rows[0].status == status then 1 else 0) + CountRows(rows[1..], status)
  }

  lemma {:induction false} CompletedAppend(a: seq<CallRow>, b: seq<CallRow>)
    ensures CountCompleted(a + b) == CountCompleted(a) + CountCompleted(b)
    ensures CountFailed(a + b) == CountFailed(a) + CountFailed(b)
  {
    if |a| > 0 {
      CompletedAppend(a[1..], b);
      assert (a + b)[1..] == a[1..] + b;
    } else {
      assert a + b == b;
    }
  }

  lemma {:induction false} RowCounts(rows: seq<Row>)
    requires AllPaired(rows)
    ensures CountCompleted(LinkedCalls(rows)) == CountRows(rows, ApprovalStatus.Executed)
    ensures CountFailed(LinkedCalls(rows)) == CountRows(rows, ApprovalStatus.Rejected) + CountRows(rows, ApprovalStatus.Failed)
    ensures CountWaiting(Statuses(rows)) + CountRows(rows, ApprovalStatus.Rejected) + CountRows(rows, ApprovalStatus.Failed)
            + CountRows(rows, ApprovalStatus.Executed) == |rows|
    ensures CountStatus(Statuses(rows), ApprovalStatus.Rejected) == CountRows(rows, ApprovalStatus.Rejected)
  {
    if |rows| == 0 {
    } else {
      RowCounts(rows[1..]);
      assert LinkedCalls(rows)[1..] == LinkedCalls(rows[1..]);
      assert Statuses(rows)[1..] == Statuses(rows[1..]);
      assert Paired(rows[0]);
    }
  }

  /** The numbers shown on the dashboard account for every approval and every tool call that
      came of one. */
  lemma CountsAddUp(desk: Desk)
    requires AllPaired(desk.rows)
    ensures var counts := CountsOf(Calls(desk), Statuses(desk.rows));
            var executed, failed := CountRows(desk.rows, ApprovalStatus.Executed), CountRows(desk.rows, ApprovalStatus.Failed);
            && counts.toolCalls == |desk.rows| + |desk.direct|
            && counts.pendingApprovals + counts.rejectedApprovals + executed + failed == |desk.rows|
            && counts.completedActions == executed + CountCompleted(desk.direct)
            && counts.failedActions == counts.rejectedApprovals + failed + CountFailed(desk.direct)
  {
    RowCounts(desk.rows);
    CompletedAppend(LinkedCalls(desk.rows), desk.direct);
  }

  /** The ticket of a run is resolved exactly when every approval was rejected or executed,
      nothing runs or failed, and if something was rejected, something else was delivered. */
  lemma ResolvedMeans(desk: Desk)
    requires AllPaired(desk.rows)
    ensures TicketStatusFor(Derived(desk), CountsOf(Calls(desk), Statuses(desk.rows))) == Resolved <==>
              && desk.status != RunStatus.Cancelled && !HasCall(desk.direct, ToolCallStatus.Running)
              && (forall i | 0 <= i < |desk.rows| :: desk.rows[i].status.Rejected? || desk.rows[i].status.Executed?)
              && !HasCall(desk.direct, ToolCallStatus.Failed)
              && (HasRow(desk.rows, ApprovalStatus.Rejected) ==> HasDelivered(desk.rows) || HasDelivery(desk.direct))
  {
    if desk.status != RunStatus.Cancelled {
      StatusMeans(desk);
      OpenMeansWaiting(desk.rows);
      StatusCount(Statuses(desk.rows), ApprovalStatus.Rejected);
      DeliveryCount(Calls(desk));
      DeliveredRows(desk);
      EndedWell(desk.rows);
    }
  }

  lemma EndedWell(rows: seq<Row>)
    requires AllPaired(rows)
    ensures !HasOpen(rows) && !HasRow(rows, ApprovalStatus.Failed) <==>
            forall i | 0 <= i < |rows| :: rows[i].status.Rejected? || rows[i].status.Executed?
  {
    forall i | 0 <= i < |rows|
      ensures rows[i].status.Rejected? || rows[i].status.Executed? <==>
              Terminal(rows[i].status) && rows[i].status != ApprovalStatus.Failed
    {
      assert Paired(rows[i]);
    }
  }
}
