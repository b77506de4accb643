/** What holds of every run of the protocol, whatever its reads. */
module ProtocolTheorems {
  import opened Domain
  import opened Policy
  import opened ApprovalModel
  import opened Protocol
  import opened ProtocolInvariant

  // ---- Reading the trace backwards ----

  lemma {:induction false} SoundEarlier(cfg: Config, past: Log, trace: Log)
    requires Sound(cfg, trace) && Earlier(past, trace)
    ensures Sound(cfg, past)
  {
    if past == trace {
    } else {
      SoundEarlier(cfg, past, trace.before);
    }
  }

  /** What was recorded next was recorded after what its kind demands. */
  lemma EventSound(cfg: Config, steps: seq<Step>, past: Log, e: Event)
    requires Run(cfg, steps).Some? && Earlier(Then(past, e), Run(cfg, steps).value.trace)
    ensures Sound(cfg, past) && EventOk(cfg, past, e)
  {
    RunKeepsInv(cfg, steps);
    SoundEarlier(cfg, Then(past, e), Run(cfg, steps).value.trace);
  }

  lemma {:induction false} OccursAt(e: Event, trace: Log) returns (past: Log)
    requires Occurs(e, trace)
    ensures past.Then? && past.last == e && Earlier(past, trace)
  {
    if trace.last == e {
      past := trace;
    } else {
      past := OccursAt(e, trace.before);
    }
  }

  lemma {:induction false} OccursLater(e: Event, past: Log, trace: Log)
    requires Occurs(e, past) && Earlier(past, trace)
    ensures Occurs(e, trace)
  {
    if past == trace {
    } else {
      OccursLater(e, past, trace.before);
    }
  }

  // ---- Calls without approval ----

  /** A handler run by execute() itself: earlier in the same request the policy allowed this
      tool and this payload, under the catalog as it then was. */
  lemma DirectCallsAllowed(cfg: Config, steps: seq<Step>, past: Log, t: TxId, tool: string, payload: Payload)
    returns (decided: Log)
    requires Run(cfg, steps).Some?
    requires Earlier(Then(past, DirectHandlerCall(t, tool, payload)), Run(cfg, steps).value.trace)
    ensures decided.Then? && Earlier(decided, past)
    ensures decided.last == PolicyDecided(t, tool, payload, Allow)
    ensures Decide(cfg.registry, CatalogAt(cfg.seed, decided.before), tool, payload).action == Allow
  {
    EventSound(cfg, steps, past, DirectHandlerCall(t, tool, payload));
    decided := OccursAt(PolicyDecided(t, tool, payload, Allow), past);
    SoundEarlier(cfg, decided, past);
  }

  lemma {:induction false} MadeSafe(seed: Catalog, trace: Log, tool: string)
    requires tool in seed && seed[tool] != Safe
    ensures tool in CatalogAt(seed, trace)
    ensures CatalogAt(seed, trace)[tool] == Safe ==> Occurs(CatalogChanged(tool, Safe), trace)
  {
    if trace.Empty? {
    } else {
      MadeSafe(seed, trace.before, tool);
    }
  }

  /** A tool that starts out sensitive runs without review only after an administrator made it
      safe. */
  lemma OnlyMadeSafeRunsDirectly(cfg: Config, steps: seq<Step>, past: Log, t: TxId, tool: string, payload: Payload)
    requires Run(cfg, steps).Some?
    requires Earlier(Then(past, DirectHandlerCall(t, tool, payload)), Run(cfg, steps).value.trace)
    requires tool in cfg.seed && cfg.seed[tool] != Safe
    ensures Occurs(CatalogChanged(tool, Safe), past)
  {
    var decided := DirectCallsAllowed(cfg, steps, past, t, tool, payload);
    MadeSafe(cfg.seed, decided.before, tool);
    OccursLater(CatalogChanged(tool, Safe), decided, past);
  }

  /** So it is with everything that the catalog the program starts with names as sensitive. */
  lemma SensitiveToolsNeedAnAdministrator(cfg: Config, steps: seq<Step>, past: Log, t: TxId, tool: string, payload: Payload)
    requires cfg.seed == SEED_CATALOG && (tool in APPROVAL_REQUIRED_TOOLS || tool in BLOCKED_TOOLS)
    requires Run(cfg, steps).Some?
    requires Earlier(Then(past, DirectHandlerCall(t, tool, payload)), Run(cfg, steps).value.trace)
    ensures Occurs(CatalogChanged(tool, Safe), past)
  {
    SeededNotSafe(SAFE_TOOLS, APPROVAL_REQUIRED_TOOLS, BLOCKED_TOOLS, tool);
    OnlyMadeSafeRunsDirectly(cfg, steps, past, t, tool, payload);
  }

  // ---- Calls after approval ----

  lemma {:induction false} StoodAt(trace: Log, id: ApprovalId, tool: string, payload: Payload) returns (stood: Log)
    requires Stood(trace, id, tool, payload)
    ensures Earlier(stood, trace) && Stands(OpsOf(stood, id), tool, payload)
  {
    if Stands(OpsOf(trace, id), tool, payload) {
      stood := trace;
    } else {
      stood := StoodAt(trace.before, id, tool, payload);
    }
  }

  /** The last record is a person's approval or edit. */
  predicate LastIsReview(log: seq<AuditRecord>) {
    && log != [] && log[|log| - 1].actorType == Human
    && (log[|log| - 1].event == ApprovedEvent || log[|log| - 1].event == EditedEvent)
  }

  lemma {:induction false} ReviewOnRecord(cfg: Config, trace: Log, id: ApprovalId)
    requires Sound(cfg, trace)
    requires OpsOf(trace, id) != [] && OpsOf(trace, id)[|OpsOf(trace, id)| - 1].Approve?
    ensures LastIsReview(AuditOf(trace, id))
  {
    if trace.last.Committed? && trace.last.id == id {
    } else {
      ReviewOnRecord(cfg, trace.before, id);
    }
  }

  /** A handler run by execute_approved: at some moment before it the last word on record was
      a person's approval or edit of a proposal of this tool, and this was then the payload.
      Which moment, depends on what the locked read returns. */
  lemma ApprovedCallsOnceReviewed(cfg: Config, steps: seq<Step>, past: Log,
                                  t: TxId, id: ApprovalId, tool: string, payload: Payload)
    returns (reviewed: Log)
    requires Run(cfg, steps).Some?
    requires Earlier(Then(past, ApprovedHandlerCall(t, id, tool, payload)), Run(cfg, steps).value.trace)
    ensures Earlier(reviewed, past) && LastIsReview(AuditOf(reviewed, id))
    ensures var ops := OpsOf(reviewed, id);
            ops != [] && ops[0].Create? && ops[0].tool == tool && payload == LastEditOrProposal(ops)
  {
    EventSound(cfg, steps, past, ApprovedHandlerCall(t, id, tool, payload));
    reviewed := StoodAt(past, id, tool, payload);
    SoundEarlier(cfg, reviewed, past);
    ReviewOnRecord(cfg, reviewed, id);
  }

  // ---- Commits ----

  /** An approval that reads EXECUTED had its handler called, by the request that executed
      it; whoever finishes an execution had entered it; and an approval exists only for a
      call the policy sent to review. */
  lemma CommitsEarned(cfg: Config, steps: seq<Step>, past: Log, t: TxId, id: ApprovalId, op: Op, record: AuditRecord)
    requires Run(cfg, steps).Some?
    requires Earlier(Then(past, Committed(t, id, op, record)), Run(cfg, steps).value.trace)
    ensures op.Finish? && op.ok ==>
              exists tool, payload :: Occurs(ApprovedHandlerCall(t, id, tool, payload), past)
    ensures op.Finish? ==> exists payload :: Occurs(Entered(t, id, payload), past)
    ensures op.Create? ==> Occurs(PolicyDecided(t, op.tool, op.payload, RequestApproval), past)
    ensures op.Approve? || op.Reject? ==> record.actorType == Human
  {
    EventSound(cfg, steps, past, Committed(t, id, op, record));
  }

  /** Approvals and tool calls agree in every committed state. */
  lemma RowsPaired(cfg: Config, steps: seq<Step>, id: ApprovalId)
    requires Run(cfg, steps).Some? && id in Run(cfg, steps).value.rows
    ensures Paired(Run(cfg, steps).value.rows[id])
  {
    RunKeepsInv(cfg, steps);
  }

  // ---- Row locks are given back ----

  /** How far the holder of a row lock is from giving it back. */
  function ToGo(phase: Phase): nat {
    match phase
    case HasRow(_) => 4
    case InCall(_, _) => 3
    case Flushed(_, _, inRedis) => if inRedis then 2 else 1
    case Aborting(inRedis) => if inRedis then 2 else 1
    case _ => 0
  }

  /** Whose step it is; nobody's where a key expires or the catalog changes. */
  function ActorOf(step: Step): Option<TxId> {
    if step.ExpireRedis? || step.SetCatalog? then None else Some(step.t)
  }

  /** A step that the holder t of the row `id` can take on its own, towards its commit. */
  predicate Advances(cfg: Config, s: State, step: Step, t: TxId, id: ApprovalId) {
    && t in s.txs && ActorOf(step) == Some(t) && Apply(cfg, s, step).Some?
    && var s' := Apply(cfg, s, step).value;
    && t in s'.txs && ToGo(s'.txs[t].phase) < ToGo(s.txs[t].phase)
    && (if ToGo(s'.txs[t].phase) == 0 then id !in s'.rowLock else s'.rowLock == s.rowLock)
    && forall u | u in s.txs && u != t :: u in s'.txs && s'.txs[u] == s.txs[u]
  }

  lemma EnterAdvances(cfg: Config, s: State, t: TxId)
    requires t in s.txs && s.txs[t].phase.HasRow?
    ensures Advances(cfg, s, Enter(t), t, s.txs[t].id)
  {
  }

  lemma LeaveAdvances(cfg: Config, s: State, t: TxId)
    requires t in s.txs && s.txs[t].phase.InCall?
    ensures Advances(cfg, s, Leave(t, false), t, s.txs[t].id)
  {
  }

  lemma ReleaseAdvances(cfg: Config, s: State, t: TxId)
    requires t in s.txs && (s.txs[t].phase.Flushed? || s.txs[t].phase.Aborting?) && s.txs[t].phase.inRedis
    ensures Advances(cfg, s, ReleaseRedis(t), t, s.txs[t].id)
  {
  }

  lemma CommitAdvances(cfg: Config, s: State, t: TxId)
    requires t in s.txs && TxOk(s, t) && s.txs[t].phase.Flushed? && !s.txs[t].phase.inRedis
    ensures Advances(cfg, s, Commit(t), t, s.txs[t].id)
  {
  }

  lemma CommitNothingAdvances(cfg: Config, s: State, t: TxId)
    requires t in s.txs && s.txs[t].phase.Aborting? && !s.txs[t].phase.inRedis
    ensures Advances(cfg, s, CommitNothing(t), t, s.txs[t].id)
  {
  }

  function NextOf(t: TxId, phase: Phase): Step {
    match phase
    case HasRow(_) => Enter(t)
    case InCall(_, _) => Leave(t, false)
    case Flushed(_, _, inRedis) => if inRedis then ReleaseRedis(t) else Commit(t)
    case Aborting(inRedis) => if inRedis then ReleaseRedis(t) else CommitNothing(t)
    case _ => ReadUnlocked(t)
  }

  lemma HolderStep(cfg: Config, s: State, id: ApprovalId) returns (step: Step)
    requires Discipline(s) && id in s.rowLock
    ensures Advances(cfg, s, step, s.rowLock[id], id)
  {
    var t := s.rowLock[id];
    assert TxOk(s, t) && s.txs[t].id == id;
    step := NextOf(t, s.txs[t].phase);
    match s.txs[t].phase
    case HasRow(_) => EnterAdvances(cfg, s, t);
    case InCall(_, _) => LeaveAdvances(cfg, s, t);
    case Flushed(_, _, inRedis) => if inRedis { ReleaseAdvances(cfg, s, t); } else { CommitAdvances(cfg, s, t); }
    case Aborting(inRedis) => if inRedis { ReleaseAdvances(cfg, s, t); } else { CommitNothingAdvances(cfg, s, t); }
  }

  /** Whoever holds a row lock is never blocked: it can always take a step of its own that
      brings it closer to its commit, whatever everyone else is doing. A handler that does
      not return is ended by the timeout of its attempts. */
  lemma HolderProceeds(cfg: Config, steps: seq<Step>, id: ApprovalId) returns (step: Step)
    requires Run(cfg, steps).Some? && id in Run(cfg, steps).value.rowLock
    ensures Advances(cfg, Run(cfg, steps).value, step, Run(cfg, steps).value.rowLock[id], id)
  {
    RunKeepsInv(cfg, steps);
    step := HolderStep(cfg, Run(cfg, steps).value, id);
  }

  lemma {:induction false} RunFromCons(cfg: Config, s: State, step: Step, more: seq<Step>)
    requires Apply(cfg, s, step).Some? && RunFrom(cfg, Apply(cfg, s, step).value, more).Some?
    ensures RunFrom(cfg, s, [step] + more) == RunFrom(cfg, Apply(cfg, s, step).value, more)
  {
    var all := [step] + more;
    if |more| == 0 {
      assert all[..0] == [];
    } else {
      RunFromCons(cfg, s, step, more[..|more| - 1]);
      assert all[..|all| - 1] == [step] + more[..|more| - 1];
    }
  }

  predicate AllBy(steps: seq<Step>, t: TxId) {
    forall i | 0 <= i < |steps| :: ActorOf(steps[i]) == Some(t)
  }

  lemma HolderOneOn(cfg: Config, s: State, id: ApprovalId) returns (step: Step, s': State)
    requires Inv(cfg, s) && id in s.rowLock
    ensures Apply(cfg, s, step) == Some(s') && Inv(cfg, s') && ActorOf(step) == Some(s.rowLock[id])
    ensures id in s'.rowLock ==>
              s'.rowLock[id] == s.rowLock[id] && ToGo(s'.txs[s.rowLock[id]].phase) < ToGo(s.txs[s.rowLock[id]].phase)
    ensures ToGo(s.txs[s.rowLock[id]].phase) > 0
    ensures forall u | u in s.txs && u != s.rowLock[id] :: u in s'.txs && s'.txs[u] == s.txs[u]
  {
    step := HolderStep(cfg, s, id);
    s' := Apply(cfg, s, step).value;
    StepKeepsInv(cfg, s, step);
  }

  lemma {:induction false} HolderFinishes(cfg: Config, s: State, id: ApprovalId) returns (more: seq<Step>)
    requires Inv(cfg, s) && id in s.rowLock
    ensures |more| <= ToGo(s.txs[s.rowLock[id]].phase) && RunFrom(cfg, s, more).Some? && AllBy(more, s.rowLock[id])
    ensures var s' := RunFrom(cfg, s, more).value;
            && id !in s'.rowLock
            && forall u | u in s.txs && u != s.rowLock[id] :: u in s'.txs && s'.txs[u] == s.txs[u]
    decreases ToGo(s.txs[s.rowLock[id]].phase)
  {
    var step, s1 := HolderOneOn(cfg, s, id);
    if id in s1.rowLock {
      more := HolderFinishes(cfg, s1, id);
    } else {
      more := [];
    }
    RunFromCons(cfg, s, step, more);
    more := [step] + more;
  }

  /** Request u waits for the lock of the row `id`. */
  predicate WaitsForRow(s: State, u: TxId, id: ApprovalId) {
    u in s.txs && s.txs[u].id == id && (s.txs[u].phase.HasRedis? || (s.txs[u].phase.Waiting? && s.txs[u].request.Review?))
  }

  function LockStep(s: State, u: TxId): Step
    requires u in s.txs
  {
    if s.txs[u].phase.HasRedis? then LockForExecution(u) else LockForReview(u)
  }

  /** No request waits for a row in vain: at most four steps, all of them the holder's, and it
      can lock the row, being where it was. */
  lemma WaiterGetsItsTurn(cfg: Config, steps: seq<Step>, u: TxId, id: ApprovalId) returns (more: seq<Step>)
    requires Run(cfg, steps).Some? && WaitsForRow(Run(cfg, steps).value, u, id) && id in Run(cfg, steps).value.rowLock
    ensures |more| <= 4 && AllBy(more, Run(cfg, steps).value.rowLock[id]) && RunFrom(cfg, Run(cfg, steps).value, more).Some?
    ensures var s, s' := Run(cfg, steps).value, RunFrom(cfg, Run(cfg, steps).value, more).value;
            u in s'.txs && s'.txs[u] == s.txs[u] && Apply(cfg, s', LockStep(s', u)).Some?
  {
    var s := Run(cfg, steps).value;
    RunKeepsInv(cfg, steps);
    HolderElsewhere(s, u, id);
    more := HolderFinishes(cfg, s, id);
    RunFromKeepsInv(cfg, s, more);
    FreeRowCanBeLocked(cfg, RunFrom(cfg, s, more).value, u, id);
  }

  lemma HolderElsewhere(s: State, u: TxId, id: ApprovalId)
    requires Discipline(s) && WaitsForRow(s, u, id) && id in s.rowLock
    ensures s.rowLock[id] != u && ToGo(s.txs[s.rowLock[id]].phase) <= 4
  {
  }

  lemma FreeRowCanBeLocked(cfg: Config, s: State, u: TxId, id: ApprovalId)
    requires Inv(cfg, s) && WaitsForRow(s, u, id) && id !in s.rowLock
    ensures Apply(cfg, s, LockStep(s, u)).Some?
  {
    if s.txs[u].phase.HasRedis? {
      assert TxOk(s, u);
      SnapshotHasRow(s.trace, id, s.txs[u].phase.row);
    }
  }

  lemma {:induction false} SnapshotHasRow(trace: Log, id: ApprovalId, row: Row)
    requires SnapshotOf(trace, id, row)
    ensures OpsOf(trace, id) != []
  {
    if !RowFrom(row, OpsOf(trace, id)) {
      SnapshotHasRow(trace.before, id, row);
    }
  }
}
