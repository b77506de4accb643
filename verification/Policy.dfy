/** The policy decision of app/guardrails/policy.py over the mutable catalog of
    app/guardrails/catalog.py. */
module Policy {
  import opened Domain

  /** `accepts` is the tool's input model: whether a payload validates. */
  datatype ToolDefinition = ToolDefinition(
    sensitivity: Sensitivity,
    accepts: Payload -> bool
  )

  type Registry = map<string, ToolDefinition>
  type Catalog = map<string, Sensitivity>

  const SAFE_TOOLS: set<string> := {
    "classify_ticket", "detect_priority", "extract_entities", "search_knowledge_base",
    "draft_email_response", "create_crm_note", "summarize_tickets", "generate_report"
  }
  const APPROVAL_REQUIRED_TOOLS: set<string> := {
    "send_email", "update_ticket_status", "export_report", "trigger_refund_request", "post_slack_message"
  }
  const BLOCKED_TOOLS: set<string> := {
    "delete_customer_record", "issue_actual_refund", "change_billing_plan",
    "modify_audit_log", "disable_guardrails", "access_secrets"
  }

  /** The catalog at process start; later loops win where the name sets overlap. */
  function Seeded(safe: set<string>, approvalRequired: set<string>, blocked: set<string>): Catalog {
    (map name | name in safe :: Safe)
    + (map name | name in approvalRequired :: ApprovalRequired)
    + (map name | name in blocked :: Blocked)
  }

  const SEED_CATALOG: Catalog := Seeded(SAFE_TOOLS, APPROVAL_REQUIRED_TOOLS, BLOCKED_TOOLS)

  /** What is seeded as sensitive is not safe, whatever the name sets have in common. */
  lemma SeededNotSafe(safe: set<string>, approvalRequired: set<string>, blocked: set<string>, name: string)
    requires name in approvalRequired || name in blocked
    ensures var catalog := Seeded(safe, approvalRequired, blocked);
            && name in catalog && catalog[name] != Safe
            && (name in blocked ==> catalog[name] == Blocked)
  {
  }

  datatype Action = Allow | RequestApproval | Deny
  datatype Reason = AllowedSafeTool | ApprovalNeeded | BlockedTool | UnregisteredTool | InvalidPayload
  datatype Decision = Decision(action: Action, sensitivity: Option<Sensitivity>, reason: Reason)

  /** The catalog entry, or what the tool declares about itself when it has none. */
  function EffectiveSensitivity(registry: Registry, catalog: Catalog, tool: string): Sensitivity
    requires tool in registry
  {
    if tool in catalog then catalog[tool] else registry[tool].sensitivity
  }

  function Decide(registry: Registry, catalog: Catalog, tool: string, payload: Payload): Decision {
    if tool !in registry then
      Decision(Deny, None, UnregisteredTool)
    else
      var sensitivity := EffectiveSensitivity(registry, catalog, tool);
      if sensitivity == Blocked then
        Decision(Deny, Some(sensitivity), BlockedTool)
      else if !registry[tool].accepts(payload) then
        Decision(Deny, Some(sensitivity), InvalidPayload)
      else if sensitivity == ApprovalRequired then
        Decision(RequestApproval, Some(sensitivity), ApprovalNeeded)
      else
        Decision(Allow, Some(sensitivity), AllowedSafeTool)
  }

  /** What the catalog says of a tool, or else the tool of itself. */
  predicate Counts(registry: Registry, catalog: Catalog, tool: string, level: Sensitivity) {
    tool in registry && (if tool in catalog then catalog[tool] == level else registry[tool].sensitivity == level)
  }

  /** A call runs exactly if its tool is registered and safe and its payload validates; it
      waits for approval exactly if all is so but the tool needs approval; it is denied in all
      other cases, for the first of the reasons. */
  lemma DecisionMeans(registry: Registry, catalog: Catalog, tool: string, payload: Payload)
    ensures var d := Decide(registry, catalog, tool, payload);
            var valid := tool in registry && registry[tool].accepts(payload);
            && (d.action == Allow <==> Counts(registry, catalog, tool, Safe) && valid)
            && (d.action == RequestApproval <==> Counts(registry, catalog, tool, ApprovalRequired) && valid)
            && (d.action == Deny <==> tool !in registry || Counts(registry, catalog, tool, Blocked) || !valid)
            && (d.reason == UnregisteredTool <==> tool !in registry)
            && (d.reason == BlockedTool <==> Counts(registry, catalog, tool, Blocked))
            && (d.reason == InvalidPayload <==> tool in registry && !Counts(registry, catalog, tool, Blocked) && !valid)
            && (d.sensitivity.Some? <==> tool in registry)
            && (d.sensitivity.Some? ==> Counts(registry, catalog, tool, d.sensitivity.value))
  {
  }

  predicate Seeds(tool: string, sensitivity: Sensitivity) {
    tool in SEED_CATALOG && SEED_CATALOG[tool] == sensitivity
  }

  /** What the catalog says when the process starts. */
  lemma BlockedAtStart(tool: string)
    ensures Seeds(tool, Blocked) <==>
              tool in ["delete_customer_record", "issue_actual_refund", "change_billing_plan",
                       "modify_audit_log", "disable_guardrails", "access_secrets"]
  {
  }

  lemma AskedAtStart(tool: string)
    requires tool !in BLOCKED_TOOLS
    ensures Seeds(tool, ApprovalRequired) <==>
              tool in ["send_email", "update_ticket_status", "export_report", "trigger_refund_request", "post_slack_message"]
  {
  }

  lemma SafeAtStart(tool: string)
    requires tool !in BLOCKED_TOOLS && tool !in APPROVAL_REQUIRED_TOOLS
    ensures Seeds(tool, Safe) <==>
              tool in ["classify_ticket", "detect_priority", "extract_entities", "search_knowledge_base",
                       "draft_email_response", "create_crm_note", "summarize_tickets", "generate_report"]
  {
  }
}
