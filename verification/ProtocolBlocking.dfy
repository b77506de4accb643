/** A tool that is blocked between its approval and its execution: an execution does not ask
    the policy again. */
module ProtocolBlocking {
  import opened Domain
  import opened Policy
  import opened Protocol
  import opened ProtocolInvariant
  import opened ProtocolTheorems
  import opened ProtocolRuns

  /** If it did, then by the catalog of that moment the answer would be no exactly when the
      tool is blocked: nothing else that the policy refuses gets as far as a handler. */
  lemma DeniedIffBlocked(cfg: Config, steps: seq<Step>, past: Log,
                         t: TxId, id: ApprovalId, tool: string, payload: Payload)
    requires Run(cfg, steps).Some?
    requires Earlier(Then(past, ApprovedHandlerCall(t, id, tool, payload)), Run(cfg, steps).value.trace)
    ensures tool in cfg.registry
    ensures var catalog := CatalogAt(cfg.seed, past);
            Decide(cfg.registry, catalog, tool, payload).action == Deny <==>
            EffectiveSensitivity(cfg.registry, catalog, tool) == Blocked
  {
    EventSound(cfg, steps, past, ApprovedHandlerCall(t, id, tool, payload));
  }

  /** Approved, then blocked in the catalog, then executed: the handler is called although the
      policy, if it were asked, would refuse. */
  lemma BlockedToolStillRuns(cfg: Config, tool: string, payload: Payload)
    returns (steps: seq<Step>, past: Log, t: TxId, id: ApprovalId)
    requires AsksFor(cfg, tool, payload)
    ensures Run(cfg, steps).Some?
    ensures Run(cfg, steps).value.trace == Then(past, ApprovedHandlerCall(t, id, tool, payload))
    ensures Decide(cfg.registry, CatalogAt(cfg.seed, past), tool, payload).action == Deny
  {
    var start := Initial(cfg);
    var steps1, s1 := Approving(cfg, tool, payload);
    var row := s1.rows[0];
    var s2 := DoSetCatalog(s1, tool, Blocked).value;
    Then1(cfg, start, steps1, s1, SetCatalog(tool, Blocked));
    var steps3, s3 := Reading(cfg, start, steps1 + [SetCatalog(tool, Blocked)], s2, 2);
    var steps4, s4 := Calling(cfg, start, steps3, s3, 2, row);
    steps, past, t, id := steps4, s4.trace.before, 2, 0;
    RunKeepsInv(cfg, steps);
    assert CatalogAt(cfg.seed, past) == CatalogAt(cfg.seed, s4.trace) == s4.catalog == s2.catalog;
  }
}
