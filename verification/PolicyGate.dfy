/** policy_gate of app/agents/nodes.py: every planned action goes through the policy engine
    into one of three lists. */
module PolicyGate {
  import opened Domain
  import opened Policy
  import opened Planning

  /** An action together with the mark that the gate puts on it. */
  datatype Marked = Marked(item: Item, mark: string)

  datatype Gated = Gated(safe: seq<Marked>, approvalRequired: seq<Marked>, blocked: seq<Marked>)

  function ToolName(item: Item): string {
    if item.Planned? && item.tool.Str? then item.tool.s else ""
  }

  /** An action without a payload has an empty one; a payload that is no object does not
      validate. */
  function DecisionOn(registry: Registry, catalog: Catalog, item: Item): Action {
    if item.Planned? && (item.payload.None? || item.payload.value.Obj?)
    then Decide(registry, catalog, ToolName(item), FieldsOf(item)).action
    else Deny
  }

  /** Where in the plan the actions with this decision are. */
  function Positions(registry: Registry, catalog: Catalog, plan: seq<Item>, n: nat, mark: Action): seq<nat>
    requires n <= |plan|
  {
    if n == 0 then []
    else
      var before := Positions(registry, catalog, plan, n - 1, mark);
      if DecisionOn(registry, catalog, plan[n - 1]) == mark then before + [n - 1] else before
  }

  predicate Holds(bucket: seq<Marked>, plan: seq<Item>, positions: seq<nat>, mark: string) {
    && |bucket| == |positions|
    && forall j | 0 <= j < |bucket| :: positions[j] < |plan| && bucket[j] == Marked(plan[positions[j]], mark)
  }

  method Gate(registry: Registry, catalog: Catalog, plan: seq<Item>) returns (gated: Gated)
    ensures Holds(gated.safe, plan, Positions(registry, catalog, plan, |plan|, Allow), "safe")
    ensures Holds(gated.approvalRequired, plan, Positions(registry, catalog, plan, |plan|, RequestApproval), "approval_required")
    ensures Holds(gated.blocked, plan, Positions(registry, catalog, plan, |plan|, Deny), "blocked")
  {
    var safe, approvalRequired, blocked := [], [], [];
    for i := 0 to |plan|
      invariant Holds(safe, plan, Positions(registry, catalog, plan, i, Allow), "safe")
      invariant Holds(approvalRequired, plan, Positions(registry, catalog, plan, i, RequestApproval), "approval_required")
      invariant Holds(blocked, plan, Positions(registry, catalog, plan, i, Deny), "blocked")
    {
      match DecisionOn(registry, catalog, plan[i]) {
        case Allow => safe := safe + [Marked(plan[i], "safe")];
        case RequestApproval => approvalRequired := approvalRequired + [Marked(plan[i], "approval_required")];
        case Deny => blocked := blocked + [Marked(plan[i], "blocked")];
      }
    }
    gated := Gated(safe, approvalRequired, blocked);
  }

  /** The three lists keep the order of the plan, and each action is in exactly the one list
      that the decision on it names. */
  lemma {:induction false} GatePartitions(registry: Registry, catalog: Catalog, plan: seq<Item>, n: nat, mark: Action)
    requires n <= |plan|
    ensures var positions := Positions(registry, catalog, plan, n, mark);
            && (forall j | 0 <= j < |positions| :: positions[j] < n)
            && (forall i, j | 0 <= i < j < |positions| :: positions[i] < positions[j])
            && (forall i :: i in positions <==> 0 <= i < n && DecisionOn(registry, catalog, plan[i]) == mark)
  {
    if n == 0 {
    } else {
      GatePartitions(registry, catalog, plan, n - 1, mark);
    }
  }

  function Sizes(registry: Registry, catalog: Catalog, plan: seq<Item>, n: nat): nat
    requires n <= |plan|
  {
    |Positions(registry, catalog, plan, n, Allow)| + |Positions(registry, catalog, plan, n, RequestApproval)|
    + |Positions(registry, catalog, plan, n, Deny)|
  }

  /** Nothing is lost and nothing doubled. */
  lemma {:induction false} GateConserves(registry: Registry, catalog: Catalog, plan: seq<Item>, n: nat)
    requires n <= |plan|
    ensures Sizes(registry, catalog, plan, n) == n
  {
    if n == 0 {
    } else {
      GateConserves(registry, catalog, plan, n - 1);
      var decision := DecisionOn(registry, catalog, plan[n - 1]);
      assert decision == Allow || decision == RequestApproval || decision == Deny;
    }
  }

  /** From proposals to the gate: while the catalog does not call sending mail safe, no message
      is in the safe list, and what waits for approval can be sent. */
  lemma MessagesNeedApproval(registry: Registry, catalog: Catalog, raw: Option<seq<Item>>, state: State, i: nat)
    requires i < |Normalized(raw, state)| && IsEmail(Normalized(raw, state)[i])
    requires "send_email" in registry && EffectiveSensitivity(registry, catalog, "send_email") != Safe
    ensures var item := Normalized(raw, state)[i];
            && Sendable(item, state)
            && DecisionOn(registry, catalog, item) != Allow
            && (DecisionOn(registry, catalog, item) == RequestApproval ==>
                  EffectiveSensitivity(registry, catalog, "send_email") == ApprovalRequired
                  && registry["send_email"].accepts(FieldsOf(item)))
  {
    NormalizedReady(raw, state);
    ToolsDiffer();
  }

  predicate Validates(registry: Registry, tool: string, item: Item) {
    && tool in registry && item.Planned? && item.payload.Some? && item.payload.value.Obj?
    && registry[tool].accepts(item.payload.value.fields)
  }

  /** With the catalog as it is at the start, what is planned goes where it should: notes are
      safe, messages and reports wait for approval, and what does not validate is blocked. */
  lemma PlanAtStart(registry: Registry, raw: Option<seq<Item>>, state: State, i: nat)
    requires i < |Normalized(raw, state)|
    ensures var item := Normalized(raw, state)[i]; var decision := DecisionOn(registry, SEED_CATALOG, item);
            && item.Planned? && item.tool in [Str("send_email"), Str("create_crm_note"), Str("export_report")]
            && (item.tool == Str("create_crm_note") ==>
                  decision == if Validates(registry, "create_crm_note", item) then Allow else Deny)
            && (item.tool == Str("send_email") ==>
                  decision == if Validates(registry, "send_email", item) then RequestApproval else Deny)
            && (item.tool == Str("export_report") ==>
                  decision == if Validates(registry, "export_report", item) then RequestApproval else Deny)
  {
    var item := Normalized(raw, state)[i];
    NormalizedReady(raw, state);
    ToolsDiffer();
    StartLevels();
    DecisionMeans(registry, SEED_CATALOG, ToolName(item), FieldsOf(item));
  }

  lemma StartLevels()
    ensures Seeds("create_crm_note", Safe) && Seeds("send_email", ApprovalRequired) && Seeds("export_report", ApprovalRequired)
  {
    BlockedAtStart("create_crm_note");
    BlockedAtStart("send_email");
    BlockedAtStart("export_report");
    AskedAtStart("send_email");
    AskedAtStart("export_report");
    SafeAtStart("create_crm_note");
  }
}
