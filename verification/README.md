# A verified model of the support-agent backend

The backend lets a language model plan tool calls, runs the harmless ones, and holds the
sensitive ones until a person has approved, edited or rejected them. This project models that
machinery in Dafny and proves what it is relied on for.

* **Policy and approvals.** `Policy` is the decision about one call. `ApprovalModel` gives the
  approval operations as functions on a row and proves what any history of them does to the
  status, the payload and the audit log; `ApprovalHistories` says exactly which histories there
  are and what row and records each leaves. `ApprovalService` and `ToolExecutor` are the services
  as classes that update rows in place, each method proved against those functions.
* **The execution protocol.** `Protocol` is a system of any number of concurrent requests with
  a Redis lock that may expire at any step and is given back before the commit, a row lock held
  to the commit, writes that become visible only at the commit, and an observer's trace.
  `ProtocolInvariant` and `ProtocolTheorems` are about every run, whatever the locked read of
  an execution returns; `ProtocolFresh` and `ProtocolSafety` about every run in which each of
  these reads finds the committed row; `ProtocolRuns` and `ProtocolReread` show, with failing
  runs, that each of those safety properties holds of all runs exactly if the read is
  fresh. `ProtocolHistories` is the other direction: each history that an approval can have is that
  of some run, and nobody is stuck. `ProtocolBlocking` is about a tool that is blocked after its
  approval. `RedisLock` treats the lock itself, with
  real time, and `RedisRefinement` shows that its runs are runs of the protocol's Redis keys.
  `Retry` bounds how long a call can take, and so compares it with the TTL.
* **Runs and tickets.** `RunSummary` derives run and ticket status from calls and approvals;
  `RunMeaning` tells status, output and ticket by what is in the run; `RunProgress` follows one
  run through any sequence of requests to its approval endpoints.
* **Redaction.** `PythonText`, `Patterns`, `Redactor`, `RedactorTokens`, `RedactorRestoring`,
  `RedactorRoundTrip`: the five patterns as regular expressions, redact and unredact as loops
  over real strings, and the exact condition under which one undoes the other.
  `RedactorLimits`, `RedactorRuns` and `RedactorCounts`: which texts come back, as a caller can tell
  beforehand, for engines that report what stands in the text and for engines that report
  matches side by side. `RedactorHides`: what is gone from a redacted text, and what is missed.
  `PatternExamples` has the families of strings that each pattern is meant for, and
  `RedactorNames` how the placeholders are spelt and numbered. `ModelRouter` sends requests down a
  chain of providers on deep copies, redacted for hosted ones.
* **Retrieval.** `Chunking`, `ChunkBoundaries`, `DocumentChunks` and `DocumentText` (nothing
  lost, sizes bounded, chunks filled); `Paragraphs`, `ChunkGroups` and `Headings` (which splits,
  groups and cuts these are, each the only one of its kind); `Fusion` and `HybridSearch`
  (reciprocal rank fusion and its guarantees); `ContextPacking` and `PackedText` (the budget, and
  what is written).
* **Planning.** `Words`, `Planning` and `PolicyGate`: what proposed actions are normalized to,
  and how they are sorted. `PlanningMeaning` and `PlannedActions` tell each planned action by the
  proposal it comes from and by what is known of the customer.

## Assumptions

* Flush and commit succeed; no process ends in the middle of a transaction; recording an audit
  row does not raise; catalog values are valid sensitivities.
* Handlers, providers, the pattern engine and the clock are foreign. A handler is a script of
  what its attempts come to, a provider any function, `findall` any function whose results the
  pattern matches, and time is exact.
* Whether the locked read of an execution sees the committed row is the parameter `rereads` of
  `Protocol.Config`, not an assumption. The execute endpoint reads the same row without a lock
  first, in the same session (app/api/approvals.py:144), and the locked read does not ask for
  fresh attributes (app/services/approval.py:82-91), so a session that keeps its copy does not
  see it. `ProtocolTheorems` holds either way. Each property of `ProtocolSafety` holds of any
  run in which every such read finds the row as committed, read afresh or not changed
  meanwhile; and it holds of all runs if and only if the read is fresh, as the lemmas of
  `ProtocolReread` show for any system that has something to approve.
* A handler that does not return is ended by the timeout of its attempts, so an execution can
  always go on; a row lock is held by one transaction at a time.
* The constant k of the fusion is not negative, and scores and times are exact reals. Time
  goes on while the lock is tried, also with a retry delay of zero.

## Where the code and its documentation differ

* docs/GUARDRAILS_AND_APPROVALS.md:5-7 says that `execute_approved` asks the policy again. It does
  not (app/tools/executor.py:174-222), and neither does the model: a tool that is blocked
  after its approval still runs (`ProtocolBlocking.BlockedToolStillRuns`), and a blocked tool is
  the only thing that asking again would stop (`ProtocolBlocking.DeniedIffBlocked`).
* The transitions listed at docs/GUARDRAILS_AND_APPROVALS.md:80-86 leave out that an edited
  request can be edited again or approved as it is; the code allows both
  (app/services/approval.py:102-106) and a plain approval keeps the edit.
* `build_agent_run_output` reads the run status before it is updated, so the status inside the
  output is one refresh behind (`RunSummary.RefreshSettles`).
* `unredact` does not undo `redact` on every text: a mail that quotes an earlier placeholder
  changes (`RedactorLimits.QuotedPlaceholderIsLost`). A redaction is undone exactly if none of
  the placeholders it made up was in the text (`RedactorRoundTrip.RoundTrip`). With one pattern
  these are the first ones of its kind, as many as it found (`RedactorLimits.OnePatternIff`).
  Before the call: a text without placeholders always comes back
  (`RedactorLimits.PlaceholderFreeComesBack`); one with placeholders does, whatever of it is
  reported and however often, exactly if it has no match of their kinds
  (`RedactorLimits.ComesBackIff`); and where matches are reported side by side, as `findall`
  does, exactly if it has too few of them to reach those numbers, for placeholders of the kind
  that is searched first (`RedactorCounts.FirstPatternIff`). So "[EMAIL_REDACTED_5] a@b.co"
  comes back (`RedactorCounts.NumberedComesBack`).
* Redaction can leave a match readable: it replaces the first occurrence of its text, which
  need not be the one that matched. In "0000-00-0000 000-00-0000" the second number is found
  and the digits of the first are replaced (`RedactorHides.MissedNumber`). What is found stays
  readable exactly if it stands in the text more often than it was reported
  (`RedactorHides.MissedIff`).
* The claim that a chunk found by both searches ranks above one found by only one holds for
  lists of up to k + 1 results and fails for k + 2 (`HybridSearch.ConsensusIff`).
* A section yields chunks, with its heading in front, exactly when its body is not blank
  (`DocumentText.DocumentLosesNothing`), so a document that is only a heading has no chunk
  (`DocumentText.LoneHeadingIsLost`).

## Model

| member | source | states |
|---|---|---|
| `ProtocolSafety.AtMostOneExecution` | app/tools/executor.py:184-222 | In every interleaving, with the Redis lock expiring at any step and released before the commit, at most one request enters the tool call of an approval, and none ever has once it stands rejected; in every run whose locked reads of executions find the row as committed. |
| `ProtocolSafety.OneExecutor` | app/tools/executor.py:198-206 | All handler calls of an approval are the same request's, with the same payload; on the same condition. |
| `ProtocolSafety.EndedForever` | app/services/approval.py:102-185 | A rejected, executed or failed approval is the same row after any continuation of any run; on the same condition for both. |
| `ProtocolSafety.AuditReplaysRun` | app/services/approval.py:122-230 | The audit records of an approval, read alone and checked to be a chain from its creation, give its committed status; an approval that does not exist has none; on the same condition. |
| `ProtocolSafety.ApprovedCallsReviewed` | app/tools/executor.py:188-206 | Every handler call of an execution comes when the last audit record is a human approval or edit; no rejection of that approval is recorded before or after; the tool is the proposed one and the payload the last non-empty edit or the proposal; on the same condition. |
| `ProtocolSafety.ExecutionsConserved` | app/tools/executor.py:188-222 | Executions entered are exactly those of the approvals now executed or failed, plus those not committed yet, and no approval is in both; on the same condition. |
| `ProtocolReread.AtMostOneIffReread` | app/api/approvals.py:144-163 | Executing at most once in every run is equivalent to the locked read seeing the committed row. |
| `ProtocolReread.NeverAfterRejectionIffReread` | app/services/approval.py:82-91 | So is: no execution of what stands rejected. |
| `ProtocolReread.OneExecutorIffReread` | app/services/approval.py:82-91 | So is: all handler calls of an approval are one request's. |
| `ProtocolReread.CalledNeverRejectedIffReread` | app/services/approval.py:82-91 | So is: what a handler is called for is never rejected, before or after. |
| `ProtocolReread.ReviewedCallsIffReread` | app/services/approval.py:82-91 | So is: at every handler call a person's approval or edit is the last word on record, and tool and payload are what stands there. |
| `ProtocolReread.EndedForeverIffReread` | app/services/approval.py:82-91 | So is: ended approvals never change. |
| `ProtocolReread.AuditReplaysIffReread` | app/services/approval.py:82-91 | So is: the audit records alone give the status. |
| `ProtocolReread.ConservedIffReread` | app/services/approval.py:82-91 | So is: executions are conserved. |
| `ProtocolReread.StaleReadsExecuteTwice` | app/api/approvals.py:144-163 | With a stale locked read there is a run in which two requests each call the handler for one approval. |
| `ProtocolReread.StaleReadExecutesRejected` | app/api/approvals.py:144-163 | And one in which the handler is called for an approval that stands rejected, and the commit then overwrites the rejection and breaks the chain of audit records. |
| `ProtocolTheorems.DirectCallsAllowed` | app/tools/executor.py:59-139 | Whatever happens to the catalog meanwhile, every handler call of `execute` is preceded by a decision ALLOW in the same request, for that tool and payload, under the catalog of that moment. |
| `ProtocolTheorems.OnlyMadeSafeRunsDirectly` | app/api/settings.py:132-179 | A tool that starts out sensitive is run without approval only after an administrator set it to safe. |
| `ProtocolTheorems.SensitiveToolsNeedAnAdministrator` | app/guardrails/catalog.py:18-52 | So it is with every tool the initial catalog names as needing approval or blocked. |
| `ProtocolTheorems.ApprovedCallsOnceReviewed` | app/tools/executor.py:188-206 | Whatever the locked read returns: before every handler call of an execution there was a moment when the last audit record was a human approval or edit of a proposal of this tool and this was the payload. |
| `ProtocolBlocking.DeniedIffBlocked` | app/tools/executor.py:195-206 | If the policy were asked again at a handler call of an execution, it would refuse if and only if the tool is blocked in the catalog of that moment. |
| `ProtocolBlocking.BlockedToolStillRuns` | app/tools/executor.py:174-222 | There is a run, for any tool that needs approval, in which it is approved, then blocked, and its handler is called. |
| `ProtocolTheorems.CommitsEarned` | app/tools/executor.py:207-222 | An approval committed as executed had its handler called by that same request, one finished was entered by it; one that was created comes from a decision to ask; approvals and rejections are recorded as human. |
| `ProtocolTheorems.RowsPaired` | app/services/approval.py:140-230 | In every committed state of every run open approvals go with waiting tool calls, rejected with denied, executed with completed, failed with failed. |
| `ProtocolTheorems.HolderProceeds` | app/api/approvals.py:138-174 | Whoever holds a row lock always has a step of its own that brings it closer to its commit, and the last one frees the row. |
| `ProtocolTheorems.WaiterGetsItsTurn` | app/services/approval.py:82-91 | From every reachable state, for every request that waits for a row, at most four steps, all of them the lock holder's, lead to a state in which the waiting request, unchanged, can lock the row. |
| `ProtocolHistories.EveryHistoryHappens` | app/api/approvals.py:71-174 | Each history that the policy lets begin and whose success has a valid payload is that of some run, which ends with exactly the row the history leads to; the handler of a success was called with the last edit or the proposal. |
| `ProtocolHistories.EditIsExecuted` | app/tools/executor.py:188-206 | There is a run in which a proposal is edited and then executed, its handler called with the edit. |
| `ProtocolHistories.AllowedIsCalled` | app/tools/executor.py:59-139 | Whatever tool and payload the policy allows, there is a run that calls the handler directly. |
| `ProtocolHistories.NobodyStuck` | app/api/approvals.py:138-174 | In every reachable state each request that is not done can take a step of its own, unless it waits for a row that another has locked. |
| `ProtocolInvariant.StepKeepsInv` | app/tools/executor.py:184-222 | Each of the seventeen kinds of step keeps the lock discipline and the agreement of rows and trace, whatever the locked read returns. |
| `ProtocolInvariant.RunKeepsInv` | app/api/approvals.py:71-174 | So does every run from the initial state. |
| `ProtocolFresh.StepKeepsExact` | app/tools/executor.py:184-222 | A step whose locked read finds the committed row, and every other step, also keeps that lock holders know the row as it is, that operations form one history, and the count of executions. |
| `ProtocolFresh.RunKeepsExact` | app/services/approval.py:82-91 | So does every run in which all such reads do, for any configuration. |
| `ApprovalModel.AuditReplay` | app/services/approval.py:60-230 | For any history, replaying its audit records gives the status it leads to. |
| `ApprovalModel.PayloadIntegrity` | app/services/approval.py:114-120 | For any history, the payload to be executed is the last edit if it is not empty and the proposal otherwise; the proposal never changes and a plain approval keeps the edit. |
| `ApprovalModel.StatusClimbs` | app/services/approval.py:102-214 | Nothing is allowed in a terminal state, and every allowed operation but editing an edited request raises the rank of the status. |
| `ApprovalModel.HistoryBound` | app/services/approval.py:102-214 | Any history has at most three operations that are not edits, fewer while it has not ended. |
| `ApprovalModel.HistoryPaired` | app/services/approval.py:140-230 | Approval and tool call agree after any history. |
| `ApprovalModel.ExecutableMeansReviewed` | app/services/approval.py:102-120 | An executable approval has a human decision as its last operation and neither rejection nor execution anywhere before. |
| `ApprovalModel.NothingEndedBefore` | app/services/approval.py:148-154 | A rejection or an execution can only be the last operation of a history, and its status says so. |
| `ApprovalHistories.HistoriesAre` | app/services/approval.py:102-214 | The histories are exactly those that begin with a creation and in which each operation may follow the one before: approval and edit a creation or an edit, rejection anything not ended, execution an approval or an edit; status, call, edit and reviewer of the row are told by the operations. |
| `ApprovalHistories.NextAllowed` | app/services/approval.py:102-214 | One more operation can be done exactly if it may follow the last: what was approved or edited can be executed, what has not ended can be rejected. |
| `ApprovalHistories.RecordsAre` | app/services/approval.py:60-230 | Each operation of a history leaves one audit record, which names who did it, what, and the statuses before and after. |
| `ApprovalHistories.TerminalMeans` | app/services/approval.py:102-214 | The ended statuses are exactly those from which nothing is possible. |
| `ApprovalService.Service.CreateRequest` | app/services/approval.py:31-80 | The new row is pending, its tool call and run are waiting, and the audit log gained the creation record. |
| `ApprovalService.Service.ApproveRequest` | app/services/approval.py:93-138 | Row, tool call and log end up exactly as the approval operation on the old row says, or nothing changed and the error names the state. |
| `ApprovalService.Service.RejectRequest` | app/services/approval.py:140-181 | Likewise for a rejection, which denies the tool call. |
| `ApprovalService.Service.MarkExecuted` | app/services/approval.py:183-204 | Only an approved or edited request becomes executed, with its record; otherwise nothing changes. |
| `ApprovalService.Service.MarkFailed` | app/services/approval.py:206-230 | The request is failed, whatever it was, with its record. |
| `ApprovalService.AuditService.Append` | app/services/audit.py:15-44 | The log keeps all it had and gains one row. |
| `ToolExecutor.Executor.Execute` | app/tools/executor.py:48-139 | The handler is invoked only where the decision is ALLOW; otherwise a pending approval or a denied call is left, an unregistered tool leaves no call; the call carries the effective sensitivity, and the log gains exactly the records of that case. |
| `ToolExecutor.Executor.DenyToolCall` | app/tools/executor.py:141-172 | The proposed call is denied, with an error text and one record. |
| `ToolExecutor.Executor.ExecuteApproved` | app/tools/executor.py:174-222 | If the lock was got and the approval is there, stands approved or edited, and its call and tool exist, the payload to be executed went to the handler as often as the retry policy says and row, call and log tell how it ended; in each other case the error names what was missing, and approval, call and log are untouched. |
| `ToolExecutor.Executor.ExecuteToolCall` | app/tools/executor.py:224-334 | A payload that does not validate never reaches the handler; status, output, retry count and the two audit records follow the outcome of the retries. |
| `ToolExecutor.InvocationsBounded` | app/tools/executor.py:252-309 | The handler is called at most as often as the policy allows, not at all exactly when the payload is invalid, and the call succeeds exactly when some allowed attempt returns. |
| `Policy.DecisionMeans` | app/guardrails/policy.py:47-101 | A call runs exactly if its tool is registered, counts as safe and its payload validates; it waits for approval exactly if all is so but the tool needs approval; it is denied in all other cases, for the first of the reasons, also a safe tool with an invalid payload. |
| `Policy.SeededNotSafe` | app/guardrails/catalog.py:46-52 | A tool seeded as sensitive is not safe in the catalog, and one seeded as blocked is blocked, even if the name sets overlap. |
| `RedisLock.Lock.Acquire` | app/services/redis_lock.py:32-49 | The key is taken only when free or expired; every earlier try found it live; giving up happens only after the deadline and changes nothing; at most ceil(timeout / delay) + 1 tries, or for a delay of zero none after the first one past the deadline. |
| `RedisLock.Lock.Release` | app/services/redis_lock.py:51-56 | The key is deleted only while it holds this client's token. |
| `RedisLock.MutualExclusionWithinTtl` | app/services/redis_lock.py:32-63 | Two clients are inside together only if one of them has stayed past its TTL. |
| `RedisLock.LateReleaseHarmless` | app/services/redis_lock.py:14-19 | A late release never takes the key from an owner within its TTL. |
| `RedisLock.EventuallyFree` | app/services/redis_lock.py:36-41 | When every client inside has overstayed, the next try gets the lock. |
| `RedisRefinement.TimedRunRefines` | app/services/redis_lock.py:36-56 | Every timed run of the lock is a sequence of the protocol's own Redis key steps: every successful try an acquisition, every departure, however late, a release, in that order, expiries in between, and at the end the key is there exactly if it is live. |
| `RedisRefinement.ProtocolTurns` | app/tools/executor.py:184-187 | These key steps are all the ways in which the protocol touches its Redis keys. |
| `Retry.Run` | app/services/retry.py:27-51 | Outcome, number of attempts and total pause are those of the recursive specification. |
| `Retry.RunMeaning` | app/services/retry.py:31-51 | A run ends at the first attempt that returns, with the number of attempts made, and fails with the last error exactly when all max(max_attempts, 1) fail. |
| `Retry.LimitMeans` | app/services/retry.py:31-31 | A policy of no or negative attempts still makes one. |
| `Retry.TotalPauseClosedForm` | app/services/retry.py:43-47 | The pauses sum to the geometric series, and to a multiple of the first where the backoff does not grow. |
| `Retry.RunTimeBound` | app/services/retry.py:31-47 | No run is longer than all its attempts timing out. |
| `Retry.WorstCaseReached` | app/services/retry.py:34-47 | That bound is attained. |
| `Retry.DefaultFitsTheLock` | app/core/config.py:32-37 | With the default settings the worst case is 45.75 seconds, below the TTL of the lock. |
| `RunSummary.Run.Refresh` | app/services/agent_run_summary.py:278-307 | Run and ticket end up as the derivation says, the completion time being set once. |
| `RunSummary.Run.SyncTicket` | app/services/agent_run_summary.py:253-275 | The ticket takes status, intent, priority and entities from the output where it has them. |
| `RunSummary.ResolvedIff` | app/services/agent_run_summary.py:137-244 | A refresh resolves the ticket exactly when the run is not cancelled, no approval waits or failed, no call runs or failed, and a rejection is matched by a delivery. |
| `RunMeaning.DerivedMeans` | app/services/agent_run_summary.py:137-151 | Which of the five statuses a refresh gives, each by exactly what is in the run: cancelled, a running call, an open approval, a failure, none of these. |
| `RunMeaning.TicketMeans` | app/services/agent_run_summary.py:229-244 | A waiting run makes its ticket wait, a cancelled one sends it back to triage, a completed one resolves it unless there is a rejection and no delivery, a failed or running one leaves it in progress. |
| `RunMeaning.SummaryMeans` | app/services/agent_run_summary.py:184-201 | The summary speaks of the first that there is of an open approval, a delivery, a rejection, a failed or denied call, a completed call. |
| `RunMeaning.DeliveriesMean` | app/services/agent_run_summary.py:162-167 | The deliveries are the completed messages, notes and reports, at rising positions of the calls. |
| `RunMeaning.DraftMeans` | app/services/agent_run_summary.py:45-59 | A draft once shown stays; otherwise the first that a drafting call offers is shown. |
| `RunMeaning.SyncedMeans` | app/services/agent_run_summary.py:266-274 | The ticket takes intent, priority, entities and issue type where the run kept them, and keeps its own elsewhere. |
| `RunSummary.SummaryAgrees` | app/services/agent_run_summary.py:184-201 | The summary speaks of waiting exactly when an approval waits, and a run summed up as rejected does not resolve its ticket. |
| `RunSummary.RefreshSettles` | app/services/agent_run_summary.py:203-207 | A second refresh changes nothing but the shown status, which lags by one; a third changes nothing. |
| `RunProgress.CancelledSticks` | app/services/agent_run_summary.py:141-142 | No sequence of requests to the approval endpoints brings a cancelled run back. |
| `RunProgress.NextMeans` | app/api/approvals.py:71-174 | A request that is allowed acts on its own approval and the run is refreshed; any other leaves everything as it is. |
| `RunProgress.StatusMeans` | app/services/agent_run_summary.py:143-151 | For rows paired with their calls, a run with no direct call running waits exactly while an approval is open, then is failed or completed by what became of them. |
| `RunProgress.StatusStaysDerived` | app/api/approvals.py:87-166 | An up-to-date status stays up to date through any sequence of requests. |
| `RunProgress.SettledForever` | app/api/approvals.py:71-174 | A run without open approvals keeps its approvals and calls through any sequence of requests, and its status too, except that a recheck brings it up to date. |
| `RunProgress.DecisionsBounded` | app/services/approval.py:102-185 | Of any number of requests, at most two for each approval get through, edits not counted. |
| `RunProgress.CountsAddUp` | app/services/agent_run_summary.py:162-224 | The counts shown account for every approval and every tool call. |
| `RunProgress.ResolvedMeans` | app/services/agent_run_summary.py:229-244 | In terms of approvals: the ticket is resolved exactly when the run is not cancelled, all were rejected or executed, no direct call runs or failed, and a rejection is matched by a delivery. |
| `Patterns.MatchFacts` | app/llm/redactor.py:19-33 | Whatever one of the five patterns matches is not empty, has no brackets and is no part of a placeholder numbered below 10^9. |
| `PatternExamples.EmailMatches` | app/llm/redactor.py:19-21 | The email pattern matches every local part, @, host, dot and ending of at least two characters, for which the class takes letters and, as it is written, the bar. |
| `PatternExamples.SsnMatches` | app/llm/redactor.py:25-27 | The pattern of social security numbers matches all groups of three, two and four digits with dashes. |
| `PatternExamples.CreditCardMatches` | app/llm/redactor.py:28-30 | The card pattern matches four groups of four digits, each with a dash, a space or nothing behind it. |
| `PatternExamples.PhoneMatches` | app/llm/redactor.py:22-24 | The phone pattern matches ten digits with or without country, parentheses and separators. |
| `PatternExamples.IpMatches` | app/llm/redactor.py:31-33 | The pattern of addresses of machines matches four groups of one to three digits with dots. |
| `Redactor.PIIRedactor.Redact` | app/llm/redactor.py:67-85 | Text, count and map are those of the recursive specification: per pattern, per match, replace the first occurrence. |
| `RedactorNames.WholeTextRedacted` | app/llm/redactor.py:36-85 | A text that is one match becomes, for each of the five kinds, exactly the first placeholder of that kind, and the map leads back to it. |
| `RedactorNames.NumberedThrough` | app/llm/redactor.py:73-79 | The n-th entry of any redaction is the bracketed name of an active kind with the digits of n, from 0 on through all kinds. |
| `RedactorNames.DigitsUnique` | app/llm/redactor.py:73-79 | These digits are the only ones without a leading zero that read as n. |
| `PythonText.ReplacesEach` | app/llm/redactor.py:87-92 | Restoring replaces a placeholder where it first stands, and goes on behind it. |
| `Redactor.PIIRedactor.Unredact` | app/llm/redactor.py:87-92 | The entries are replaced everywhere, in order, for any text and map. |
| `RedactorRoundTrip.RoundTrip` | app/llm/redactor.py:67-92 | For every text with up to 10^9 matches and any engine, unredact(redact(text)) is the text if and only if none of its placeholders occurs in the text, also where replace-first hits another occurrence. |
| `RedactorRoundTrip.BracketFreeComesBack` | app/llm/redactor.py:67-92 | So every text without an opening bracket comes back. |
| `RedactorLimits.OnePatternIff` | app/llm/redactor.py:67-92 | With one pattern active, a text comes back if and only if none of the first n placeholders of its kind stands in it, n being how many matches were found. |
| `RedactorLimits.ComesBackIff` | app/llm/redactor.py:67-92 | A text comes back whatever patterns are active and whatever of it the engine reports, in any order and however often, if and only if it has no match of a kind of which a placeholder with up to nine digits stands in it. |
| `RedactorLimits.PlaceholderFreeComesBack` | app/llm/redactor.py:67-92 | A text in which no placeholder of up to nine digits stands comes back from every redaction. |
| `RedactorLimits.QuotedPlaceholderIsLost` | app/llm/redactor.py:67-92 | The text "[EMAIL_REDACTED_0] a@b.co", with the address found, does not come back. |
| `RedactorCounts.FirstPatternIff` | app/llm/redactor.py:73-79 | Where matches are reported side by side and all placeholders in the text are of the kind searched first, the text always comes back if and only if for no placeholder in it numbered n it has n + 1 such matches side by side. |
| `RedactorCounts.HighNumbersComeBack` | app/llm/redactor.py:67-92 | For any list of distinct patterns, a text comes back if each placeholder in it is of a kind that has no match there, or its number is not below the most matches that its kind and those searched before it can have there. |
| `RedactorCounts.FewSignsComeBack` | app/llm/redactor.py:19-33 | For these bounds it is enough to count signs: an @ for each address, a dash, a dot, ten digits. |
| `RedactorCounts.NumberedComesBack` | app/llm/redactor.py:67-92 | The text "[EMAIL_REDACTED_5] a@b.co" always comes back. |
| `RedactorHides.ReportedIsHidden` | app/llm/redactor.py:73-79 | What a pattern, when its turn comes, reports as often as it then occurs, without overlap, is nowhere in the redacted text, whichever occurrences were replaced and whatever the later patterns do. |
| `RedactorHides.OneReplaced` | app/llm/redactor.py:76-78 | Replacing one match by its placeholder makes no other text occur more often, and the match itself exactly once less. |
| `RedactorHides.MissedIff` | app/llm/redactor.py:73-79 | With one pattern active that reports a single text, any number of times, that text is still readable afterwards if and only if it stands in the original more often, without overlap, than it was reported. |
| `RedactorHides.MissedNumber` | app/llm/redactor.py:76-78 | In "0000-00-0000 000-00-0000", with the second number found, that number is still readable after redaction. |
| `ModelRouter.Router.Complete` | app/llm/router.py:110-174 | The calls made, the outcome and what the tracker saw follow the chain; the caller's request is as it was. |
| `ModelRouter.Router.RedactMessages` | app/llm/router.py:138-142 | Redacting in place gives exactly the redacted contents, roles and sharing kept; a message object that stands in the list several times is redacted once for each time. |
| `ModelRouter.LLMRequest.DeepCopy` | app/llm/router.py:129-136 | The copy says the same, with the same objects at the same positions, and shares none with the request. |
| `ModelRouter.CallsFollowChain` | app/llm/router.py:121-136 | Each provider that is set up is asked once per route, in the order of the chain, and nobody else is. |
| `ModelRouter.FirstAnswerWins` | app/llm/router.py:148-174 | The outcome is the first answer, all providers before it having failed; a failure means that all have. |
| `ModelRouter.OneErrorEach` | app/llm/router.py:160-174 | The errors are one for each failed call, in order, and name its provider, its model and what it raised. |
| `ModelRouter.HostedSeesRedacted` | app/llm/router.py:129-146 | Every call goes to the provider of its route with the model of the route. Hosted providers see every message and the system prompt redacted, a message object that stands in the list several times as often; the local one sees them as written, also after a hosted one has failed; roles are kept. |
| `ModelRouter.UnredactedAsWritten` | app/llm/router.py:135-138 | Where redaction is off every provider gets the request as written, with the model of its route. |
| `ModelRouter.RoutesMean` | app/llm/router.py:39-75 | For each purpose, which models are asked, in which order. |
| `ModelRouter.LastResortIsLocal` | app/llm/router.py:39-108 | The chain of every purpose ends in a local model, so no request fails untried. |
| `Chunking.SplitTextChunks` | app/retrieval/chunking.py:40-71 | The chunks are those of the recursive specification. |
| `Paragraphs.ParagraphsSplit` | app/retrieval/chunking.py:49-49 | A list of parts is the split of a text exactly if there are separators, each at least two newlines, with which it weaves the text, no part contains a blank line, borders on a newline or stands empty between two separators; there is only one. |
| `Paragraphs.ParagraphsMean` | app/retrieval/chunking.py:49-56 | The paragraphs are the parts that are not blank, stripped, in order. |
| `ChunkGroups.ChunksAreGroups` | app/retrieval/chunking.py:46-71 | A text that fits is its one chunk. The chunks of a longer one are its paragraphs in groups, joined by blank lines behind what each takes over; a group takes paragraphs as long as they fit, and the next begins with one that did not. |
| `ChunkGroups.GroupsUnique` | app/retrieval/chunking.py:53-66 | There is only one such grouping. |
| `ChunkBoundaries.ChunkingLosesNothing` | app/retrieval/chunking.py:46-71 | Every chunk after the first begins with exactly the overlap asked for, a tail of the chunk before and a blank line, or with none, and then with a paragraph for which the chunk before had no room left; without the overlaps the chunks spell the text in order, whitespace aside. |
| `Chunking.ChunkSizeBound` | app/retrieval/chunking.py:58-69 | No chunk exceeds the chunk size or the longest paragraph with the overlap and blank line before it; short paragraphs keep every chunk within the chunk size. |
| `DocumentChunks.SplitByHeadings` | app/retrieval/chunking.py:19-37 | The sections are those of the specification. |
| `Headings.HeadingMeans` | app/retrieval/chunking.py:16-16 | A heading is found at the start of a line exactly where one to six #, whitespace and text up to the end of a line stand, and it is the match that takes most whitespace. |
| `Headings.CutMeans` | app/retrieval/chunking.py:24-25 | A list of parts and headings is the cut of a document exactly if they make it up in turn, no heading begins within a part, and each heading is the one that begins there; there is only one. |
| `Headings.SectionsMean` | app/retrieval/chunking.py:27-37 | Each heading has the stripped text up to the next for its section; what stands before the first is one of its own unless it is blank. |
| `Headings.ChunksOfMean` | app/retrieval/chunking.py:93-120 | Every chunk is that of a section with text: the title and heading lines as spelt, a blank line, and a chunk of the text for the room they leave; with its heading, or the title, and a quarter of its length as token count. |
| `DocumentChunks.SectionsKeepText` | app/retrieval/chunking.py:24-37 | Parts and headings in turn are the document, and the section bodies carry all of the parts, whitespace aside. |
| `DocumentChunks.ChunkDocument` | app/retrieval/chunking.py:74-122 | The chunks are those of the specification: section by section, prefixed, numbered on. |
| `DocumentText.DocumentLosesNothing` | app/retrieval/chunking.py:88-122 | Numbered 0, 1, 2, ..., each chunk starts with title and heading of its section and goes on in it as the chunks of a text do; a section has chunks if and only if its body is not blank; without prefixes and overlaps they spell out in order all of the document that is not heading or whitespace. |
| `DocumentText.LoneHeadingIsLost` | app/retrieval/chunking.py:93-95 | A document that is only a heading has no chunk. |
| `DocumentChunks.DocumentChunkSize` | app/retrieval/chunking.py:97-116 | Every chunk belongs to a section, starts with its prefix, carries its heading, and is within the bound lifted through the prefix. |
| `DocumentChunks.RoomyDocumentFits` | app/retrieval/chunking.py:104-109 | Where every paragraph leaves room for prefix and overlap, every chunk is within the chunk size. |
| `Fusion.ReciprocalRankFusion` | app/retrieval/search.py:121-152 | The result is a fusion: each chunk found, with the sum of 1/(k + rank + 1) over its appearances, first appearance's data, ordered by score and then by first appearance. |
| `Fusion.FusionUnique` | app/retrieval/search.py:141-152 | There is only one such result. |
| `Fusion.FusionMeaning` | app/retrieval/search.py:129-152 | Every chunk found is in it exactly once; scores fall, and equal scores keep the order of first appearance. |
| `Fusion.FusedFrom` | app/retrieval/search.py:138-151 | Chunk and document title of each fused result are those of the first place in the lists at which its chunk was found; its method is the fused one. |
| `Fusion.SortByScore` | app/retrieval/search.py:141-142 | The stable descending sort of the dictionary's keys: same members, ranked. |
| `Fusion.Dominance` | app/retrieval/search.py:132-136 | A chunk that no list ranks behind another never scores lower, and scores strictly higher if one list ranks it ahead, duplicates included. |
| `HybridSearch.HybridSearch` | app/retrieval/search.py:155-194 | A failed or empty vector search gives the full-text results cut at the limit; otherwise the fused ones for k = 60, cut, each with chunk and title as the first search found them. |
| `HybridSearch.ScoreOfOnePlace` | app/retrieval/search.py:132-136 | A chunk that one search found at rank r scores 1/(k + r + 1). |
| `HybridSearch.ScoreOfTwoPlaces` | app/retrieval/search.py:132-136 | One that both found scores the sum of the two. |
| `HybridSearch.ConsensusIff` | app/retrieval/search.py:129-142 | For duplicate-free lists of up to n results, what both found scores strictly above what one found, always, if and only if n <= k + 1. |
| `HybridSearch.NoConsensusBeyond` | app/retrieval/search.py:132-136 | Two lists of k + 2 results where it fails. |
| `HybridSearch.ResultsPutConsensusFirst` | app/retrieval/search.py:155-194 | With the default limits and k, whatever the final limit, a chunk only one search found comes behind every chunk both found. |
| `HybridSearch.DominantComesFirst` | app/retrieval/search.py:141-152 | A chunk that is never behind and once ahead comes first in the result. |
| `ContextPacking.PackContext` | app/retrieval/context.py:30-107 | The longest prefix that can be packed is packed, cited 1..n in order, with the text and the token estimate of exactly these results. |
| `PackedText.PackingMeans` | app/retrieval/context.py:56-66 | A packed result stands in full if its estimate fits; else only as many characters as there is room for, which is more than a hundred, and three dots; and those before the last all fit. |
| `PackedText.StopMeans` | app/retrieval/context.py:59-63 | Packing stops only before a result that does not fit and has at most a hundred characters of room. |
| `PackedText.CitationMeans` | app/retrieval/context.py:54-84 | A citation has the number, the title of the document or else the heading, the heading or else "Untitled", the chunk and the score. |
| `PackedText.BlockMeans` | app/retrieval/context.py:68-69 | A packed result is written behind its number in brackets and its heading in parentheses. |
| `PackedText.LineMeans` | app/retrieval/context.py:94-100 | A line of the footer has number and title, the heading where it says more, and the score where that is wanted. |
| `PackedText.FooterMeans` | app/retrieval/context.py:91-101 | Each citation adds its line to the footer, which begins after a blank line, and is not there without citations. |
| `ContextPacking.TruncatedIsLast` | app/retrieval/context.py:59-66 | Only the last packed result is truncated, and what is kept, dots included, is strictly shorter than it was. |
| `ContextPacking.BudgetHolds` | app/retrieval/context.py:52-86 | For a budget of at least 0 the packed content is at most 4 * max_tokens + 3n characters; a negative budget packs nothing. |
| `ContextPacking.BiggerBudgetPacksMore` | app/retrieval/context.py:59-63 | The budget determines how many results are packed, and a larger one never packs fewer. |
| `Words.NothingSaysSent` | app/agents/nodes.py:141-141 | After the rewriting no whole word, in any case, is sent, emailed or delivered. |
| `Words.PreparedWhereNeeded` | app/agents/nodes.py:141-141 | The rewriting leaves a text alone exactly when no whole word of it is one of these. |
| `Words.RewritesEach` | app/agents/nodes.py:141-141 | Each whole word is rewritten on its own: sent, emailed and delivered, in any case, become prepared, any other stays. |
| `Words.KeepsOthers` | app/agents/nodes.py:141-141 | What is no word stays as it is. |
| `Planning.NormalizeSendEmail` | app/agents/nodes.py:93-125 | There is a message if and only if there is somebody to write to and something to say; it can be sent, and keeps its reason and other keys. |
| `PlanningMeaning.FirstTextMeans` | app/agents/nodes.py:20-27 | What is read of a value is its stripped text, or that of the first string with one in a list. |
| `PlanningMeaning.AddressMeans` | app/agents/nodes.py:30-33 | A text is taken for an address exactly if it has one @ with something before it, a dot behind it with something on both sides, no whitespace, and says nothing of redacted in any case. |
| `PlanningMeaning.CustomerMeans` | app/agents/nodes.py:46-71 | The address of the customer is that of the ticket; where it gives none, the first that the entities give under customer_email, email, to and the raw emails; and only where none of these does, the one in the input text; entities that are no object end the search after the ticket. |
| `PlannedActions.MessageMeans` | app/agents/nodes.py:93-125 | A proposal becomes a message exactly if there is somebody to write to and something to say; it goes to the customer's address, and only where none is known to the one the proposal names; body, draft and drafted response are taken in this order, and the subject named or else the usual one of the intent, with the order number. |
| `PlannedActions.NoteMeans` | app/agents/nodes.py:128-168 | A note says what was proposed or else the usual sentence; with a message pending it is rewritten and the hint at the approval added unless it mentions one; the customer is added if missing, order and intent to the tags, and all other fields stay. |
| `Planning.EmailActionSendable` | app/agents/nodes.py:99-113 | A normalized message has the known customer address or what looks like one, a clean non-empty subject and body. |
| `Planning.NormalizeCrmNote` | app/agents/nodes.py:128-168 | Note, labels and reason are those of the specification. |
| `Planning.PendingNoteCareful` | app/agents/nodes.py:140-143 | With a message pending, a note claims nothing as sent and mentions approval. |
| `Planning.NormalizePlannedActions` | app/agents/nodes.py:171-213 | The result is that of the specification, for any proposal, list or not. |
| `PlannedActions.PlanMeans` | app/agents/nodes.py:179-213 | What is no list counts as an empty one. Each surviving proposal, in order, becomes its message, note or report; behind them stands one message more, to the customer and with the draft, exactly if none was proposed that can be sent and one can be written. |
| `Planning.NormalizedReady` | app/agents/nodes.py:179-213 | Every planned action uses one of the three tools and is as its tool needs it: messages can be sent, notes are labelled, and careful if a message is planned. |
| `Planning.NormalizedKeepsOrder` | app/agents/nodes.py:179-213 | The surviving proposals become actions in their order, each keeping its tool, reason, other keys, tags, and its own subject and body where it has them; at most one message is added, at the end, and only if none was proposed. |
| `Planning.SurvivorsRise` | app/agents/nodes.py:180-192 | A proposal survives exactly if it is an object with a listed tool that, for a message, can be sent. |
| `Planning.NormalizedTwice` | app/agents/nodes.py:171-213 | Normalization is idempotent. |
| `Planning.EmailPlannedIf` | app/agents/nodes.py:194-205 | Where a customer address and a draft are known, a message is planned. |
| `PolicyGate.Gate` | app/agents/nodes.py:535-580 | Each of the three lists holds exactly the marked actions at the positions its decision has in the plan; an action without a payload is decided with an empty one. |
| `PolicyGate.GatePartitions` | app/agents/nodes.py:547-565 | Those positions rise, and each position of the plan is in exactly the list of its decision. |
| `PolicyGate.GateConserves` | app/agents/nodes.py:543-565 | The three lists together are as long as the plan. |
| `PolicyGate.MessagesNeedApproval` | app/agents/nodes.py:547-565 | From proposals to the gate: while sending mail is not safe in the catalog, no message is in the safe list, and each one waiting can be sent and validates. |
| `PolicyGate.PlanAtStart` | app/agents/nodes.py:547-565 | With the catalog as seeded, planned notes are safe, messages and reports wait for approval, and what does not validate is blocked. |

## Left out

- HTTP routing, schemas, database queries, migrations, seed data and the user interface.
- Language model, embedding and search calls, and the bodies of the mock tools: foreign results.
- Timestamps and comments in rows and audit snapshots, error message texts other than those of failed handlers and providers, and the publishing of events; of a snapshot the statuses are kept.
- The risk reason chosen for an approval, and the per-tool overrides in `retry_policy`: the executor carries one policy.
- Chaining of the audit records of tool calls: started and completed share one before state, so only approvals chain.
- Concurrent refreshes of one run, and the background writers of runs, which overwrite a cancelled status (app/api/agent_runs.py:104-194): run and ticket status are claimed for approval requests one after another.
- One live run per ticket: the time windows in app/api/agent_runs.py:57-101 do not guarantee it.
- Word boundaries and the digits of other scripts in the redaction patterns: the patterns of the model match at least as much, which is the safe side for what is proved of their matches.
- Letters beyond ASCII in the rewriting of notes, where Python's word characters and case folding are wider.
- The wording that shows a run summary, the labels of tools, and the formatting of scores: parameters or plain data.
- Planning on values: the original appends tags to the list of the proposal itself, so a caller's list changes; and it raises on a tool name that is a list or an object, where the model passes the item over.
- The search for an address in the input text: its result is part of the state.
- RedisLock.Lock.Acquire: takes what the server and the clock show at each try as given, in place of a concurrent environment; the timed system beside it has all clients together.
- Protocol steps of a crash, a lost connection or a deadline inside a transaction.
- RunProgress.SettledForever: says nothing of the output shown, which a recheck builds anew; what that changes is in `RunSummary.RefreshSettles`.
- RedactorCounts.HighNumbersComeBack: one direction only, since matches of different patterns can overlap; exact for one pattern and for the one searched first.
- RedactorHides.MissedIff: for one reported text; replacing other matches that overlap it can hide it as well.
- Usage statistics, embedding routes and JSON answers of the model router.
