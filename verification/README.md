# A verified model of the workforce-risk agent

A Dafny model of the parts of the system that change state under concurrency or carry arithmetic
and encoding rules, with the properties the system relies on. `dafny verify dfyconfig.toml`
checks all of it.

## The reassignment saga

An approved proposal changes a Jira assignee. Nothing spans the database and Jira, so the work is a
chain of short transactions around external calls: `prepare` inserts the one execution row,
`mark_write_attempted` commits a flag, the mutation client reads, edits and reads back, `finalize`
records the outcome. A worker that finds an abandoned or uncertain execution leases it, reads Jira
and resolves it.

`Transactions.dfy` holds the rows and each transaction as a function from rows to rows.
`DatabaseStore.dfy` holds the stores and the two services as objects that update those rows in
place; every method is held to its transaction. `LeaseQuery.dfy` is the query behind a lease.
`JiraMutation.dfy` is the mutation client over a scripted transport.

`Saga.dfy` is the step system: any number of proposals, executors, reconcilers and other writers of
Jira, every atomic step an action, every interleaving a run. A process may stop between any two of
its steps. An edit is put on the network when it is sent; it lands or is lost later, and the reply
to it is arbitrary, so an edit whose call failed can still land. `prepare` is two steps, an
unlocked look and an insert that fails on the unique key.

`SagaRows`, `SagaClaims`, `SagaEdits`, `SagaDecisions`, `SagaReads`, `SagaOutbox` and `SagaJira`
each state one part of the invariant and show that every step keeps it. `SagaTheorems.dfy` draws
the results for every reachable state and every continuation, `SagaKeys.dfy` those about repeated
requests. `SagaFailures.dfy` says what a stored failure tells about edits, `SagaAnswers.dfy` that a
failure after a send was answered by Jira, `SagaUncertain.dfy` how an execution leaves UNCERTAIN,
`SagaEvidence.dfy` with what evidence rows are settled, `SagaHistory.dfy` how decisions settle
proposals. `TransactionLaws.dfy` and `ServiceLaws.dfy` tell each transaction and each service call
by the rows before and after it. `SagaWitnesses.dfy` shows that the two services, left undisturbed,
are runs of this step system, and gives the one run that matters most for reading a recorded
failure:

- **EXECUTION_FAILED does not mean that no edit was applied.** A lease taken before the mark carries
  a false flag; its holder reads the expected assignee, the executor then marks and sends, the
  holder resolves to EXECUTION_FAILED, the edit lands (`FailedButApplied`). The mutation client's
  rejected edit gives the same state. The row decides all cases but one (`FailedRowTells`): only a
  marked failure without an error code is open, and there equal rows go with either answer
  (`RowsDoNotDecide`). `EditFreeExactly` gives the condition on the whole system.

## The other parts

- `AuditChain.dfy`: appenders that read the latest event and insert the next one under a unique
  sequence number, in any interleaving; both verifiers; what an equal last hash proves.
  `AuditLaws.dfy`: the same field by field.
- `RateLimiter.dfy`: the fixed-window limiter with eviction, the one without, and the tight bound
  on any span. `RateLimiterLaws.dfy`: exactly which requests are denied, and that a denial leaves no
  trace.
- `TaskProgress.dfy`, `TaskRecorder.dfy`, `TaskRejection.dfy`: the differ, replay, the recorder
  whose batches commit or roll back as a whole, and exactly when an observation is refused and a
  batch lost. A return to an earlier state in the same week violates the snapshot key.
  `RecorderLaws.dfy`: the tables told from the committed observations.
- `AlertBoard.dfy`, `AlertRuns.dfy`: recording, transitions and resolution of alerts, and what
  holds over every run of them. `AlertLaws.dfy`: each operation row by row, and the three ways in
  which an alert's state changes.
- `Scoring.dfy`: overload and family scores over exact reals with half-even rounding.
  `ScoringLaws.dfy`: the size of a score from fields, weights and caps.
- `SignedContext.dfy`: unpadded base64url (section 5 of RFC 4648), signing and verifying.
  `TokenLaws.dfy`: which text an encoding is, and what a verified token proves.
- `Simulation.dfy` on `StableSort.dfy`: candidate assessment, ordering and the what-if simulation.
  `SimulationLaws.dfy`: reasons, ranking and result from the candidates.
- `NameSpans.dfy`: the greedy selection of name matches, when it is the only one, and who is named when
  employees share a name.

## Points easy to misread in the code

- `decide` raises the version in a bulk update and then once more on the loaded object. Whether the
  rise is by one or two depends on whether the update refreshed that object, so the model takes
  both (`synchronised`).
- `resolve` checks no lease and acts on the flag as it was at lease time; `lease_proposal` ignores
  a live lease. Both are modelled as they are.

## Model

| member | source | states |
|---|---|---|
| `SagaTheorems.AtMostOneEdit` | packages/persistence/src/workforce_persistence/execution_repository.py:40-96 | in every reachable state of any interleaving of executors, reconcilers, deciders, other writers and crashes, at most one `editJiraIssue` has been sent for a proposal |
| `SagaTheorems.ClaimsAreExclusive` | packages/persistence/src/workforce_persistence/execution_repository.py:40-96 | no two executors ever hold a claim for the same proposal, although the existence check of `prepare` is not locked |
| `SagaTheorems.UnmarkedNeverEdits` | packages/persistence/src/workforce_persistence/execution_repository.py:98-111 | an execution that left EXECUTING with `write_attempted` false had no edit before and gets none in any continuation |
| `SagaTheorems.EditFreeExactly` | domain/workforce_risk/proposals/reconciliation.py:82-88 | for an execution that has left EXECUTING: no edit is sent now or ever if and only if none was sent and no process stands between the mark and the edit |
| `SagaFailures.FailedRowTells` | packages/jira-mcp-client/src/jira_mcp_client/mutation.py:88-123 | a stored EXECUTION_FAILED read off its own row: unmarked or with the code of a failed pre-read it is free of edits for ever, with the code of a rejected write the edit was sent, and the only other code is none |
| `SagaFailures.RowsDoNotDecide` | domain/workforce_risk/proposals/reconciliation.py:82-88 | the open case is open: two reachable systems with equal rows, a marked failure without a code, one free of edits for ever and one not |
| `SagaUncertain.LeavesUncertainExactly` | domain/workforce_risk/proposals/reconciliation.py:82-88 | a marked UNCERTAIN row with no older claim in any hand leaves UNCERTAIN in a step if and only if a worker that has read the proposed assignee resolves it, and then as EXECUTED_VERIFIED |
| `SagaUncertain.UncertainUntilSeen` | domain/workforce_risk/proposals/reconciliation.py:73-100 | such a row stays UNCERTAIN along every continuation in which no worker reads its proposed assignee |
| `SagaUncertain.LostEditStaysUncertain` | domain/workforce_risk/proposals/reconciliation.py:73-100 | so an execution whose edit was lost is never settled while Jira does not hold its proposed assignee, however often reconciliation runs |
| `SagaAnswers.AnswerDecides` | packages/jira-mcp-client/src/jira_mcp_client/mutation.py:111-123 | a step that receives the reply to an edit is about to record UNCERTAIN for a lost reply and EXECUTION_FAILED for an error, each with its code, and reads back for anything else |
| `SagaAnswers.FailsAfterSendOnlyIfRejected` | packages/jira-mcp-client/src/jira_mcp_client/mutation.py:111-123 | in every reachable state a `finalize` is about to record EXECUTION_FAILED for a sent edit only if Jira answered that edit with an error; a reply that was lost never leads there |
| `SagaAnswers.StoredFailureWasRejected` | packages/jira-mcp-client/src/jira_mcp_client/mutation.py:118-123 | a stored EXECUTION_FAILED with a code, whose edit was sent, is one whose edit Jira answered with an error |
| `SagaEvidence.SettledWithItsEvidence` | domain/workforce_risk/proposals/reconciliation.py:73-100 | in every reachable state a settled row carries the evidence of its state: verified the proposed assignee and no code, failed the expected one or a code, uncertain a code and not the proposed one, stale another than the expected one |
| `SagaEvidence.CodelessFailureSawExpected` | domain/workforce_risk/proposals/reconciliation.py:82-88 | a failure without a code comes only from a read of the expected assignee made since the execution began, never from a read of a third person |
| `SagaHistory.StepsFollowTheTable` | domain/workforce_risk/proposals/state.py:16-46 | every enabled step of every run moves a proposal along the transition table or leaves its state |
| `SagaHistory.DecisionsSettleTheirProposals` | packages/persistence/src/workforce_persistence/proposal_repository.py:150-224 | in every reachable state each proposal no longer PENDING has its decision in the history, and each decision left it EXPIRED from the expiry on, STALE on another fingerprint, REJECTED or approved otherwise, as it was taken |
| `SagaTheorems.MarkedLeaseNeverFails` | domain/workforce_risk/proposals/reconciliation.py:82-88 | a claim leased after the mark committed never resolves to EXECUTION_FAILED |
| `SagaTheorems.EditsFollowOneApproval` | packages/persistence/src/workforce_persistence/proposal_repository.py:150-224 | every edit sent comes after an approve taken before `expires_at` with the stored evidence fingerprint, and that approve is the only decision ever recorded for the proposal |
| `SagaTheorems.RefusedNeverEdits` | packages/persistence/src/workforce_persistence/proposal_repository.py:176-188 | a proposal that ends REJECTED, EXPIRED or STALE has no edit before or in any continuation, and its row never changes again |
| `SagaTheorems.StatesAgree` | packages/persistence/src/workforce_persistence/execution_repository.py:132-143 | an execution and its proposal have the same state in every reachable state, no proposal has two executions, APPROVED is never stored |
| `SagaTheorems.SettlingNeverRaises` | packages/persistence/src/workforce_persistence/execution_repository.py:290-301 | in no reachable state does `finalize` or `resolve` miss a row or meet an illegal transition |
| `SagaTheorems.HistoryMovesForward` | domain/workforce_risk/proposals/state.py:16-46 | along every continuation terminal rows never change and the proposal version rises strictly whenever the state changed |
| `SagaTheorems.LateFinalizeChangesNothing` | packages/persistence/src/workforce_persistence/execution_repository.py:132-133 | a `finalize` that arrives after the execution was settled changes no row |
| `SagaTheorems.LateResolveChangesNothing` | packages/persistence/src/workforce_persistence/execution_repository.py:290-294 | a `resolve` after a terminal state, or one that repeats the state, changes no row |
| `SagaTheorems.VerifiedWasRead` | packages/jira-mcp-client/src/jira_mcp_client/mutation.py:125-146 | EXECUTED_VERIFIED is recorded only after a Jira read, made since the execution began, that returned the proposed assignee |
| `SagaTheorems.EvidenceWasRead` | packages/persistence/src/workforce_persistence/execution_repository.py:135-141 | the observed assignee stored with an execution, in any state, was read from Jira for it since it began, and with EXECUTED_VERIFIED it is the proposed one |
| `SagaTheorems.VerifiedStays` | packages/jira-mcp-client/src/jira_mcp_client/mutation.py:75-146 | if nobody else writes the issue and it began at the expected assignee, a verified execution applied exactly one edit, none is on its way, and Jira holds the proposed assignee along every continuation |
| `SagaTheorems.OneNoticeIfEverUncertain` | packages/persistence/src/workforce_persistence/execution_repository.py:313-324 | the outbox holds exactly one `uncertain-execution` event for an execution that was ever UNCERTAIN and none for any other, whoever settled it and however often |
| `SagaTheorems.RunKeepsInv` | packages/persistence/src/workforce_persistence/execution_repository.py:113-167 | every run keeps the joint invariant of rows, claims, sends, decisions, reads, notices and the Jira cell, moves rows only forward and only lengthens the history |
| `SagaKeys.CreateLasts` | packages/persistence/src/workforce_persistence/proposal_repository.py:90-109 | a create with a fresh key stores one PENDING proposal at version 1, and along every continuation issue, assignees, fingerprint, expiry and key stay as requested |
| `SagaKeys.CreateIsIdempotent` | packages/persistence/src/workforce_persistence/proposal_repository.py:74-124 | a create with a stored idempotency key, at any later time, is answered with that proposal and stores nothing |
| `SagaKeys.DecideIsIdempotent` | packages/persistence/src/workforce_persistence/proposal_repository.py:153-164 | a decision with a recorded idempotency key, at any later time and whatever else it carries, is answered with that decision's proposal and changes nothing |
| `SagaEdits.EditsKept` | packages/persistence/src/workforce_persistence/execution_repository.py:85-111 | every step keeps: no edit without a mark, none for an unmarked execution that left EXECUTING, and none twice |
| `SagaDecisions.DecisionsKept` | packages/persistence/src/workforce_persistence/proposal_repository.py:150-224 | every step keeps: one decision at most for a proposal, each execution behind an approve with the stored fingerprint and before expiry |
| `SagaReads.ReadsKept` | domain/workforce_risk/proposals/reconciliation.py:73-100 | every step keeps: a verdict of verified, in a row, in a result about to be finalized or in a worker's hand, was read from Jira since the execution began |
| `SagaOutbox.OutboxKept` | packages/persistence/src/workforce_persistence/outbox_repository.py:16-44 | every step keeps: one notice for each execution that was ever UNCERTAIN |
| `SagaOutbox.LeasesKept` | packages/persistence/src/workforce_persistence/execution_repository.py:184-230 | every step keeps: a claim leased after a mark carries the mark |
| `SagaJira.JiraKept` | packages/jira-mcp-client/src/jira_mcp_client/mutation.py:102-146 | every step keeps: while nobody else writes an issue, its cell is the expected assignee before the own edit lands and the proposed one after |
| `SagaWitnesses.FailedButApplied` | packages/jira-mcp-client/src/jira_mcp_client/mutation.py:118-123 | a concrete run in which EXECUTION_FAILED is recorded and the edit is nevertheless applied: a claim leased before the mark resolves after it |
| `SagaWitnesses.SoloExecuteIsARun` | domain/workforce_risk/proposals/execution.py:54-83 | `execute` left undisturbed takes the rows exactly where some run of the step system takes them, for every reply Jira gives and every early end |
| `SagaWitnesses.RunOnceIsARun` | domain/workforce_risk/proposals/reconciliation.py:58-65 | `run_once` left undisturbed takes the rows exactly where some run of the step system takes them, also when a resolve raises |
| `Proposals.HistoriesAreShort` | domain/workforce_risk/proposals/state.py:24-46 | every history of valid transitions from PENDING has at most three steps, never passes APPROVED, and meets a terminal state only at its end |
| `DatabaseStores.DatabaseStore.Create` | packages/persistence/src/workforce_persistence/proposal_repository.py:74-124 | commits or raises as the create transaction: invalid commands refused, a known key answered with its proposal, otherwise one PENDING row at version 1 |
| `DatabaseStores.DatabaseStore.Decide` | packages/persistence/src/workforce_persistence/proposal_repository.py:150-224 | the compare-and-set and the second assignment of the loaded object together have the effect of the decide transaction, whether or not the object was refreshed |
| `DatabaseStores.DatabaseStore.Prepare` | packages/persistence/src/workforce_persistence/execution_repository.py:40-96 | without interference, the unlocked read followed by the locked insert, with all four outcomes |
| `DatabaseStores.DatabaseStore.MarkWriteAttempted` | packages/persistence/src/workforce_persistence/execution_repository.py:98-111 | the flag and the payload are committed together, only while EXECUTING |
| `DatabaseStores.DatabaseStore.Finalize` | packages/persistence/src/workforce_persistence/execution_repository.py:113-167 | first terminal state wins: an execution no longer EXECUTING is returned as stored; otherwise both rows, the version and the notice change together |
| `DatabaseStores.DatabaseStore.AppendToOutbox` | packages/persistence/src/workforce_persistence/outbox_repository.py:16-44 | a consumer key already present is left alone |
| `DatabaseStores.DatabaseStore.LeaseAbandoned` | packages/persistence/src/workforce_persistence/execution_repository.py:184-230 | leases exactly the rows the query returns and hands out their snapshots |
| `DatabaseStores.DatabaseStore.LeaseProposal` | packages/persistence/src/workforce_persistence/execution_repository.py:232-265 | leases the proposal's execution exactly if it is UNCERTAIN, whoever holds a lease on it |
| `DatabaseStores.DatabaseStore.Resolve` | packages/persistence/src/workforce_persistence/execution_repository.py:267-324 | repeats and late calls change nothing; otherwise the rows, the version, the cleared lease and the notice change together |
| `LeaseQueries.QueryTakesTheOldest` | packages/persistence/src/workforce_persistence/execution_repository.py:191-214 | the query returns distinct abandoned rows within the limit, oldest first, and leaves a wanted row out only for rows at least as old |
| `LeaseQueries.QueryExactly` | packages/persistence/src/workforce_persistence/execution_repository.py:191-214 | each row returned is unlocked, EXECUTING or UNCERTAIN, created by the cutoff and without a running lease; such a row is left out only at the limit and for rows at least as old |
| `LeaseQueries.LeaseExcludes` | packages/persistence/src/workforce_persistence/execution_repository.py:207-208 | right after a lease no query for which it has not run out returns a leased row |
| `DatabaseStores.ReassignmentExecutionService.Execute` | domain/workforce_risk/proposals/execution.py:54-83 | result, rows and Jira calls of one call are those of prepare, mark, mutate and finalize in order, with every early end |
| `DatabaseStores.ReconciliationService.Reconcile` | domain/workforce_risk/proposals/reconciliation.py:73-100 | one read, one verdict and one resolve for a claim; the loop variables give the verdict of the classification |
| `DatabaseStores.ReconciliationService.RunOnce` | domain/workforce_risk/proposals/reconciliation.py:58-65 | the claims of one lease are settled in order, a raise ends the work and keeps what was committed; Jira sees exactly one read for each claim reached, all of them if the work returns and those up to the first that raised otherwise, and nothing else |
| `DatabaseStores.ReconciliationService.RunProposal` | domain/workforce_risk/proposals/reconciliation.py:67-71 | an UNCERTAIN proposal is leased, read once and settled; for any other nothing is read or changed |
| `JiraMutation.MutationClient.Execute` | packages/jira-mcp-client/src/jira_mcp_client/mutation.py:75-146 | a refused command makes no call; otherwise the receipt and the calls are those of the three-step protocol |
| `JiraMutation.ReceiptIsHonest` | packages/jira-mcp-client/src/jira_mcp_client/mutation.py:88-146 | whatever Jira answers: at most one edit, sent exactly if the pre-read returned the expected assignee; the receipt says truly whether it was sent; VERIFIED exactly after an accepted edit and a read-back of the proposed assignee |
| `JiraMutation.OutcomeExactly` | packages/jira-mcp-client/src/jira_mcp_client/mutation.py:75-146 | the receipt and the calls on the three replies alone, case by case: FAILED exactly for a pre-read that raised or an edit answered with an error, UNKNOWN exactly for an edit that raised or an accepted one not confirmed, OUTDATED exactly for another assignee; each with its code, what was observed, whether the edit was attempted and the calls made |
| `JiraMutation.OutcomesKeepTheirNames` | domain/workforce_risk/proposals/execution.py:70-83 | each mutation outcome is stored as the proposal state of its own name |
| `JiraMutation.AllowedExactly` | packages/jira-mcp-client/src/jira_mcp_client/mutation.py:76-86 | the guard admits exactly the development environment on both sides and an allowed project that is what the issue key has before its first dash |
| `TransactionLaws.TransitionsAreTheMoves` | domain/workforce_risk/proposals/state.py:16-46 | the transition table is exactly ten pairs of states, and the terminal states are those without a move |
| `TransactionLaws.CreateExactly` | packages/persistence/src/workforce_persistence/proposal_repository.py:74-124 | a create is refused exactly for an unchanged assignee, one that is no candidate, a confidence below medium or an expiry not in the future; a known key is answered with its row, a new one stored as requested |
| `TransactionLaws.DecideExactly` | packages/persistence/src/workforce_persistence/proposal_repository.py:150-224 | a new decision raises for a missing proposal, another version or a state not PENDING, in this order; otherwise it is recorded as taken and its proposal alone goes to EXPIRED from the expiry on, else STALE on another fingerprint, else REJECTED or EXECUTING, its version up by one or two |
| `TransactionLaws.InsertExactly` | packages/persistence/src/workforce_persistence/execution_repository.py:57-96 | the insert raises for a missing proposal, one not EXECUTING or one with an execution; otherwise it adds the unmarked EXECUTING row, and the claim carries the proposal's issue and assignees |
| `TransactionLaws.MarkExactly` | packages/persistence/src/workforce_persistence/execution_repository.py:98-111 | the mark raises exactly for an execution not EXECUTING, and otherwise sets the flag and the payload of that row alone |
| `TransactionLaws.FinalizeExactly` | packages/persistence/src/workforce_persistence/execution_repository.py:113-167 | a settled execution is reported as stored; an open one and its proposal alone take the result's state, evidence and code, the version rises by one, the lease stays, and an uncertain one leaves its notice once |
| `TransactionLaws.ResolveExactly` | packages/persistence/src/workforce_persistence/execution_repository.py:267-324 | a repeated state and a terminal one change nothing; otherwise execution and proposal alone take the state and the evidence, the version rises by one, the lease goes, and an uncertain one leaves its notice once |
| `TransactionLaws.VerdictExactly` | domain/workforce_risk/proposals/reconciliation.py:73-100 | the verdict for every claim and reply: verified exactly if the proposed assignee was read, failed exactly if the expected one was and the claim is unmarked, uncertain otherwise; with what was read and the code of a failed or ambiguous read |
| `TransactionLaws.LeasesExactly` | packages/persistence/src/workforce_persistence/execution_repository.py:218-219 | a lease writes worker and time into exactly the given rows and changes nothing else |
| `TransactionLaws.ClaimIsASnapshot` | packages/persistence/src/workforce_persistence/execution_repository.py:220-230 | a claim is the row, its flag and its proposal as they are when it is leased |
| `TransactionLaws.AppendOnce` | packages/persistence/src/workforce_persistence/outbox_repository.py:16-44 | an outbox append keeps what is there, adds a new key once, and repeated changes nothing |
| `ServiceLaws.ExecutesExactly` | domain/workforce_risk/proposals/execution.py:54-83 | one undisturbed execution of an approved proposal, from the rows before and the three replies: a refused command leaves the marked row and calls nothing; otherwise rows, notice, calls and answer are those of verified, stale, failed or uncertain, each exactly for its replies |
| `ServiceLaws.ExecutesOnce` | domain/workforce_risk/proposals/execution.py:54-83 | a second execution of a proposal reports the first and changes and calls nothing |
| `ServiceLaws.ReconcilesExactly` | domain/workforce_risk/proposals/reconciliation.py:73-100 | one claim over agreeing rows never raises: execution and proposal take the state the read proves, with what was read as evidence, unless the state is there already or the execution is settled |
| `AuditChain.AuditRepository.Append` | packages/persistence/src/workforce_persistence/repositories.py:402-452 | one appending transaction adds the event linked to the latest one, or nothing if a unique key is violated |
| `AuditChain.AuditRepository.VerifyChain` | packages/persistence/src/workforce_persistence/repositories.py:455-482 | accepts exactly the chains numbered 1..n, linked, with every hash right |
| `AuditChain.AppendersLeaveASoundChain` | packages/persistence/src/workforce_persistence/repositories.py:402-452 | any interleaving of any number of appenders leaves a chain that is numbered 1..n, one event for each commit, and accepted by the verifier |
| `AuditLaws.SoundExactly` | packages/persistence/src/workforce_persistence/repositories.py:455-482 | a chain is accepted if and only if every event has its number from 1, the stored hash of the event before it, and the hash of its own number, link and details |
| `AuditLaws.AppendsExactly` | packages/persistence/src/workforce_persistence/repositories.py:402-452 | on an accepted chain the appended event has the next number, the last hash, the details and time given and their hash, and is inserted exactly if that hash is new |
| `AuditLaws.RunsExactly` | packages/persistence/src/workforce_persistence/repositories.py:402-452 | whatever the interleaving, each event is numbered and linked in its place and holds the details and time that some appender read the chain with |
| `AuditLaws.OnlyTimesDiffer` | packages/persistence/src/workforce_persistence/repositories.py:455-482 | under an injective hash two accepted chains that end in one hash are the same rows but for creation times |
| `AuditLaws.ExportExactly` | domain/workforce_risk/audit/chain.py:13-25 | an export is accepted if and only if every event has its number, the hash of the event before it or nothing at the start, and the hash of all its fields but the hash |
| `AuditChain.CommitsExactlyIfUndisturbed` | packages/persistence/src/workforce_persistence/models.py:445-450 | under an injective hash a transaction commits if and only if nobody committed since its read |
| `AuditChain.SameLastHashSameChain` | packages/persistence/src/workforce_persistence/repositories.py:455-482 | under an injective hash two accepted chains end in the same hash if and only if they agree on every hashed field of every event |
| `AuditChain.CreationTimeIsUnprotected` | packages/persistence/src/workforce_persistence/repositories.py:423-434 | the creation time is outside the hash: rewriting it anywhere leaves an accepted chain |
| `AuditChain.VerifyHashChain` | domain/workforce_risk/audit/chain.py:13-25 | accepts exactly the exports whose every event is numbered, linked and hashed right, an absent key read as null |
| `AuditChain.SameLastHashSameExport` | domain/workforce_risk/audit/chain.py:13-25 | under an injective hash two accepted exports ending in the same hash are equal key for key |
| `RateLimiter.InMemoryRateLimiter.Allow` | services/agent-api/src/agent_api/security/limits.py:44-57 | answer and table after the call are those of evicting and then counting in a fixed window |
| `RateLimiter.EvictionIsInvisible` | services/agent-api/src/agent_api/security/limits.py:45-50 | over every run with a clock that never falls and windows of at most sixty seconds, the evicting limiter answers every request as one that never evicts |
| `RateLimiterLaws.DeniedExactlyWhen` | services/agent-api/src/agent_api/security/limits.py:44-57 | over every run with a clock that never falls and windows of at most sixty seconds, a request is denied if and only if as many requests of its key as its limit were allowed since the allowed request that opened a window less than a window ago |
| `RateLimiterLaws.AllowedAfterAWindow` | services/agent-api/src/agent_api/security/limits.py:51-57 | with a positive limit, a request that is its key's first or comes at least a window after the last allowed one is allowed |
| `RateLimiterLaws.DenialLeavesNoTrace` | services/agent-api/src/agent_api/security/limits.py:54-55 | a denied request taken out of a run changes no other answer |
| `RateLimiter.PoliciesFitEviction` | services/agent-api/src/agent_api/security/limits.py:20-27 | every policy in use has a window and a limit for which the two results about runs hold |
| `RateLimiter.AtMostTwiceLessOne` | services/agent-api/src/agent_api/security/limits.py:51-57 | with N requests per window, every half-open span as long as the window holds at most 2N-1 allowed requests of a key, evictions and other keys included |
| `RateLimiter.BoundIsReached` | services/agent-api/src/agent_api/security/limits.py:51-57 | for every N and window some run and span reach exactly 2N-1 |
| `TaskProgress.DeriveProgressEvents` | packages/persistence/src/workforce_persistence/progress_repository.py:76-173 | the chain of comparisons and appends gives the derived events in their order |
| `TaskProgress.DerivedExactly` | packages/persistence/src/workforce_persistence/progress_repository.py:76-173 | an event is derived if and only if it is due on the two observations, type by type and with its values and progress flag: work logged if the hours rose or first appeared, a correction for any other change of them, completion exactly when the status went from not completed to completed, and so on for all eleven types |
| `TaskProgress.ProgressExactly` | packages/persistence/src/workforce_persistence/progress_repository.py:98-137 | structured progress is derived if and only if the status changed, the remaining estimate fell, or the spent hours rose or appeared |
| `TaskProgress.EmptyIffUnchanged` | packages/persistence/src/workforce_persistence/progress_repository.py:76-173 | for two observations of one issue, no event is derived if and only if the canonical states are equal |
| `TaskProgress.DeriveReplays` | packages/persistence/src/workforce_persistence/progress_repository.py:76-173 | folding the derived events over the previous canonical state gives the current one, `blocked` apart |
| `TaskProgress.BlockedIsLostExactly` | packages/persistence/src/workforce_persistence/progress_repository.py:144-161 | the events leave the `blocked` flag open if and only if a blocker left an issue that was blocked or came to one that was not |
| `TaskRecorder.TaskProgressRepository.RecordObservation` | packages/persistence/src/workforce_persistence/progress_repository.py:260-372 | one turn of the loop: weeks, current state, snapshot and events change as specified, or a unique key is violated |
| `TaskRecorder.TaskProgressRepository.RecordObservations` | packages/persistence/src/workforce_persistence/progress_repository.py:251-378 | a batch commits as a whole or leaves every table as it was, and its counts are what the tables grew by |
| `TaskRecorder.EventLogReplaysCurrentState` | packages/persistence/src/workforce_persistence/progress_repository.py:251-378 | after any sequence of batches, aborted ones included, an issue's committed events folded over its first snapshot give its stored current state in every field but `blocked` |
| `RecorderLaws.RunIsCommitted` | packages/persistence/src/workforce_persistence/progress_repository.py:251-378 | any run of batches leaves the tables that recording the observations of its committed batches, one after another, leaves |
| `RecorderLaws.CurrentIsTheLatest` | packages/persistence/src/workforce_persistence/progress_repository.py:314-343 | after any batches an issue's row shows its latest committed observation, with that one's week, fingerprint and times, and its last progress is the Jira time of the last observation that was its first, changed its status, lowered its estimate or raised its hours |
| `RecorderLaws.LogAndSnapshotsExactly` | packages/persistence/src/workforce_persistence/progress_repository.py:285-372 | after any batches the log holds exactly the events due from one committed observation of an issue to the next, filed under its issue, week, assignee and Jira time, and the snapshots are exactly the observations that were their issue's first or changed its state or week |
| `RecorderLaws.WeeksExactly` | packages/persistence/src/workforce_persistence/progress_repository.py:380-409 | after any batches the work weeks stored are exactly those of the committed observations |
| `TaskRecorder.SnapshotExactlyWhen` | packages/persistence/src/workforce_persistence/progress_repository.py:285-313 | a snapshot is inserted exactly when the issue is new, its week changed, or an event was derived; this equivalence holds if and only if the fingerprint tells the observed state from the stored one |
| `TaskRejection.RecordedExactlyWhen` | packages/persistence/src/workforce_persistence/progress_repository.py:285-373 | after any batches, an observation whose fingerprints collide with none concerned is recorded if and only if its issue has not left that state within the week and no change derived from it is already logged for that issue key |
| `TaskRejection.BatchLostExactlyWhen` | packages/persistence/src/workforce_persistence/progress_repository.py:251-378 | after any batches, the next one is lost as a whole if and only if it reaches an observation that returns to a state left within the week or repeats a logged change |
| `TaskRejection.ReturningLosesItsBatch` | packages/persistence/src/workforce_persistence/models.py:217-226 | a concrete loss, for any two statuses: an issue moves on and back within the week, the return is refused although nothing collides, and another issue seen for the first time in the same batch is lost with it |
| `TaskRejection.DerivedInOrder` | packages/persistence/src/workforce_persistence/progress_repository.py:103-173 | events are derived in a fixed order of types, each at most once, so one observation never collides with itself |
| `TaskRecorder.BackAndForthAborts` | packages/persistence/src/workforce_persistence/models.py:217-226 | a batch in which an issue has a state, then another, then in the week of the first that state again never commits, whatever stands between and whatever came before |
| `TaskRecorder.WeekStart` | packages/persistence/src/workforce_persistence/progress_repository.py:388-389 | every day belongs to the week that starts on the Monday at or before it |
| `AlertBoard.AlertRepository.RecordRisk` | packages/persistence/src/workforce_persistence/alert_repository.py:53-146 | rows, occurrences, outbox and result are those of the recording transaction in all its branches |
| `AlertBoard.AlertRepository.Transition` | packages/persistence/src/workforce_persistence/alert_repository.py:148-181 | a stale version or a missing row is not applied, an illegal target or a dismissal without reason raises, otherwise state and version change |
| `AlertBoard.AlertRepository.ResolveActiveRisk` | packages/persistence/src/workforce_persistence/alert_repository.py:32-51 | exactly the open alerts of the subject and type are resolved, their versions raised, and counted |
| `AlertBoard.JoinIsAmbiguous` | domain/workforce_risk/alerts/rules.py:26-28 | a colon inside a part makes two different triples share a deduplication key |
| `AlertBoard.JoinIsUniqueWithoutColons` | domain/workforce_risk/alerts/rules.py:26-28 | with no colon in the subject and the risk type, two triples share key material if and only if they are equal |
| `AlertRuns.OccurrencesAreNumbered` | packages/persistence/src/workforce_persistence/alert_repository.py:107-124 | over every run an alert's occurrences are numbered 1..n in order |
| `AlertRuns.NoNotificationSwallowed` | packages/persistence/src/workforce_persistence/alert_repository.py:125-145 | over every run the outbox holds exactly one event for each decision to notify: an alert's version rises strictly between its notifications |
| `AlertRuns.NotifiedExactlyWhen` | domain/workforce_risk/alerts/rules.py:31-52 | over every run a recording that adds an occurrence notifies if and only if its level is HIGH or CRITICAL and the history shows a first occurrence, a strict rise, or no notification within the cooldown, or the flag is set; the outbox grows by exactly that |
| `AlertRuns.CooldownHolds` | domain/workforce_risk/alerts/rules.py:31-52 | over every run in which the times of an alert's notifications do not fall, two notifications of an alert closer than the cooldown occur only on a strict rise over the last recorded severity or with the new-evidence flag |
| `AlertRuns.RecordingChangesExactlyWhen` | packages/persistence/src/workforce_persistence/alert_repository.py:69-106 | a recording changes anything if and only if the level is above LOW and the alert is new or its fingerprint or level differs; so a closed alert that sees neither is not reopened |
| `AlertLaws.RecordsExactly` | packages/persistence/src/workforce_persistence/alert_repository.py:53-146 | over every run, a recording is ignored at LOW; stores a new alert as NEW, version 1, in full; reports a repetition; and rewrites the stored alert otherwise: NEW if it was resolved or dismissed and in its state if not, with the recorded level and fingerprint, one version on, subject, type and key kept, notified exactly by the rules |
| `AlertLaws.TransitionsExactly` | packages/persistence/src/workforce_persistence/alert_repository.py:148-181 | a transition applies exactly to a stored alert in the expected version, along one of eleven moves, to DISMISSED only with a reason that is not empty; it stores the target one version on, and says otherwise which check failed and changes nothing |
| `AlertLaws.ResolvesExactly` | packages/persistence/src/workforce_persistence/alert_repository.py:32-51 | a resolution closes exactly the open alerts of the subject and type, each one version on, and counts them |
| `AlertLaws.StateMovesExactly` | packages/persistence/src/workforce_persistence/alert_repository.py:32-181 | over every run an alert's state changes in exactly three ways: a closed one is reopened by a recording above LOW of its key with another fingerprint or level, an expected version is moved along the table, an open one is resolved; who moves it raises its version |
| `AlertLaws.RoutesExactly` | domain/workforce_risk/alerts/rules.py:13-23 | every level but LOW reaches the inbox, HIGH and CRITICAL send mail, CRITICAL alone is prominent |
| `AlertRuns.DedupKeysAreUnique` | packages/persistence/src/workforce_persistence/models.py:348-350 | over every run no two alerts share a deduplication key |
| `Scoring.ScoreEmployeeOverload` | domain/workforce_risk/scoring/overload.py:73-153 | the accumulating loop gives the specified result, and its level is always defined |
| `Scoring.ScoreNormalizedFamily` | domain/workforce_risk/scoring/family.py:13-91 | the accumulating loop gives the specified result; it raises only for a contribution outside 0 to 1 |
| `ScoringLaws.OverloadExactly` | domain/workforce_risk/scoring/overload.py:73-153 | with both hours known and fresh evidence the score is the nearest integer to 100 times the sum, over the evidenced factors, of weight times the share of the cap; the level follows from the score, the confidence from the evidenced weight, and there is no score below 0.6; otherwise the missing hours or the stale evidence are named |
| `ScoringLaws.FactorsReadTheirFields` | domain/workforce_risk/scoring/overload.py:14-22 | every factor reads its own input field and is reported missing under that field's name |
| `ScoringLaws.OverloadListsExactly` | domain/workforce_risk/scoring/overload.py:99-153 | a scored result lists exactly the evidenced factors with their values, shares, weights, points and references, and names the others as missing |
| `ScoringLaws.CapsReachCoverage` | domain/workforce_risk/scoring/overload.py:105-129 | the bound is reached: with every evidenced factor at its cap or above the score is the rounded percentage of the evidenced weight |
| `ScoringLaws.FullLoadIsCritical` | domain/workforce_risk/scoring/overload.py:73-153 | full evidence with every factor at its cap or above scores 100, CRITICAL, with high confidence |
| `ScoringLaws.FamilyExactly` | domain/workforce_risk/scoring/family.py:13-91 | a family raises exactly for an evidenced value outside 0 to 1; otherwise its score is the nearest integer to 100 times the sum of weight times value, or of weight times what the value leaves of one where it takes risk away |
| `ScoringLaws.FamilyListsExactly` | domain/workforce_risk/scoring/family.py:34-60 | a scored family lists exactly its evidenced factors with their values, risks, weights, points and references, and names the others as missing |
| `ScoringLaws.FullRiskIsCritical` | domain/workforce_risk/scoring/family.py:13-91 | full evidence at full risk scores 100, CRITICAL, with high confidence |
| `Scoring.ScoreWithinCoverage` | domain/workforce_risk/scoring/overload.py:111-129 | for every accepted configuration clamping never changes the rounded score, which is at most the rounded percentage of coverage, so LOW confidence means at most 75 |
| `Scoring.MoreLoadMoreRisk` | domain/workforce_risk/scoring/overload.py:73-153 | raising any load value or lowering capacity never lowers score or level and leaves the confidence as it is |
| `Scoring.LessEvidenceLessRisk` | domain/workforce_risk/scoring/overload.py:105-129 | removing a factor's evidence never raises score or confidence while the employee is still scored |
| `Scoring.FamilyMoreRisk` | domain/workforce_risk/scoring/family.py:13-91 | with the same evidence, a rise of a risk value or a fall of an inverse one never lowers a family's score or level |
| `Scoring.RoundIsNearest` | domain/workforce_risk/scoring/overload.py:128-129 | rounding goes to a nearest integer, and to the even one at a half |
| `SignedContext.EncodingRoundTrip` | packages/contracts/src/workforce_contracts/auth.py:38-43 | unpadded base64url decodes to its input for every length, has the standard length and contains neither the separator nor padding |
| `SignedContext.EncodingIsInjective` | packages/contracts/src/workforce_contracts/auth.py:38-39 | different byte strings have different encodings |
| `SignedContext.SignThenVerify` | packages/contracts/src/workforce_contracts/auth.py:55-112 | a token verified with its own secret returns principal and correlation identifier exactly before the truncated expiry, for its environment, projects and role, and otherwise names the first check that failed |
| `SignedContext.ExpiryIsTruncated` | packages/contracts/src/workforce_contracts/auth.py:55-73 | the stored expiry is the exact one less a fraction of a second, so a lifetime of a second or more is alive at signing |
| `TokenLaws.EncodesInOrder` | packages/contracts/src/workforce_contracts/auth.py:38-39 | an encoding is written in the 64 letters of RFC 4648, table 2, each group of four holding the 24 bits of three bytes in order, the last filled up with zero bits |
| `TokenLaws.ReturnsExactly` | packages/contracts/src/workforce_contracts/auth.py:75-112 | claims are returned if and only if the token carries them before its dot, followed by the encoded code of that text under the verifier's own secret, and expiry, environment, project and role fit |
| `TokenLaws.OtherCodeIsRefused` | packages/contracts/src/workforce_contracts/auth.py:86-91 | a text with one dot is refused for its signature exactly if what follows the dot is not the encoded code of what precedes it |
| `TokenLaws.OtherSecretIsRefused` | packages/contracts/src/workforce_contracts/auth.py:86-91 | a token made with another secret is refused for its signature exactly if the codes differ |
| `TokenLaws.MalformedExactly` | packages/contracts/src/workforce_contracts/auth.py:82-85 | a token is malformed exactly if it is missing or is not two texts around one dot |
| `Simulation.AssessCandidate` | domain/workforce_risk/simulation/candidates.py:28-66 | the appended reasons and the ranking are those of the specification, which ranks exactly the eligible candidates |
| `SimulationLaws.AssessesExactly` | domain/workforce_risk/simulation/candidates.py:28-66 | a candidate is given exactly the reasons that apply, in their fixed order, is eligible and ranked exactly without one, and the ranking is the mean weighted five to three to two, to the nearest hundredth |
| `SimulationLaws.TiesByName` | domain/workforce_risk/simulation/candidates.py:69-82 | of two candidates with one ranking, and of two not eligible, the smaller name comes first |
| `SimulationLaws.NamesInOrder` | domain/workforce_risk/simulation/candidates.py:69-82 | the order of names is lexicographic |
| `SimulationLaws.SimulatesExactly` | domain/workforce_risk/simulation/service.py:48-92 | with distinct identifiers a simulation raises exactly without such an eligible candidate or for other versions, and otherwise carries the ids of the eligible in ranked order, the current scores, that candidate's own family by family, and the hash of all of it |
| `Simulation.RankingIsNearest` | domain/workforce_risk/simulation/candidates.py:60 | a ranking is the weighted mean of the three scores to the nearest hundredth |
| `Simulation.LessRiskComesFirst` | domain/workforce_risk/simulation/candidates.py:60-81 | an eligible candidate with no score above another's can come behind it only on equal rankings and by name |
| `Simulation.SelectionIsRanked` | domain/workforce_risk/simulation/candidates.py:69-82 | the selection is a permutation of the assessments with the eligible ones first, by rising ranking |
| `Simulation.SelectionIgnoresOrder` | domain/workforce_risk/simulation/candidates.py:69-82 | with distinct identifiers the selection is the same for every order of the input |
| `Simulation.SimulationIgnoresOrder` | domain/workforce_risk/simulation/service.py:48-92 | the whole simulation result, fingerprint included, is the same for every order of the candidates |
| `Simulation.ProposedIsEligible` | domain/workforce_risk/simulation/service.py:48-92 | a simulation is returned if and only if the chosen candidate exists, is eligible and was scored by the same versions |
| `NameSpans.AcceptSpans` | services/agent-api/src/agent_api/evidence/focus.py:233-244 | the accepted spans are the greedy selection in its order: disjoint matches such that every match is accepted or overlaps an accepted one that is longer, or as long and no further right; exactly their employees join the named ones |
| `NameSpans.SelectionIsMaximal` | services/agent-api/src/agent_api/evidence/focus.py:233-244 | nothing could be added: any match left out would overlap |
| `NameSpans.LeftOutForLonger` | services/agent-api/src/agent_api/evidence/focus.py:233-244 | accepted matches share no position, and one is left out only for an accepted one that shares a position with it and is longer, or as long and no further right |
| `NameSpans.SelectionIsUnique` | services/agent-api/src/agent_api/evidence/focus.py:234-243 | if no accepted match shares its span with another, no other set of matches has these properties |
| `NameSpans.OrderDecidesExactlySharedSpans` | services/agent-api/src/agent_api/evidence/focus.py:234-243 | which matches are accepted is independent of the order of the input if and only if no accepted match shares its span with another |
| `NameSpans.SharedNameGoesToTheFirst` | services/agent-api/src/agent_api/evidence/focus.py:226-244 | of matches that share a span, as those of two employees of one name do, only the first of the input can be accepted |
| `NameSpans.SharedNameDependsOnOrder` | services/agent-api/src/agent_api/evidence/focus.py:226-244 | two employees of one name matched once: whoever comes first is named and the other is not |
| `NameSpans.NamedEmployees` | services/agent-api/src/agent_api/evidence/focus.py:214-247 | the employees returned are the given list filtered, in its order, to those named directly or by an accepted span |

## Left out

- Environments other than one: every query filters by the environment, and rows of another are never seen.
- Authorisation scopes, secret comparison in constant time, and secrets as such; the guard of the mutation client is kept.
- Row identifiers are positions in a table; that a random identifier is fresh is taken as given.
- The audit event appended inside the saga's transactions; a transaction that aborts on the chain's unique key is a process that stops there.
- Parsing of Jira responses (`assignee_from_response`): a read returns the assignee in the cell or raises.
- A clock: times are parameters of the actions, in any order, except where a result states otherwise.
- The order of rows created at the same moment in a lease query; the step system lets a worker lease any list of distinct rows that pass the filter.
- Two recording transactions of the progress recorder at once: it takes no lock on the current state, and only batches one after another are modelled.
- Progress states written as JSON and read back are taken to be unchanged.
- More than one audit append in a transaction.
- Hashes, message authentication and JSON: any function, injective, invertible or free of collisions among the values concerned where a result says so.
- SignedContext.Decode: an input outside the URL-safe alphabet is refused, where Python skips such characters; signing never produces one.
- SignedContext.Verify: an empty token and an absent one are refused alike, and claims are one record, so extra keys of a payload are not seen.
- Time zones: the local calendar day of a capture is a field of the observation.
- Floating point: rates, scores and clock readings are exact reals; values equal across Python's number types, such as `1` and `True`, are distinct in an exported chain.
- Case folding and regular expressions: the completion test is a parameter, name matches are the input of the selection.
- Fields of risk results and payloads that no rule reads.
- LeaseQueries.LeaseExcludes: states exclusion for the rows as the lease left them; an execution settled as UNCERTAIN gives its lease up and can be leased again at once.
- Delivery of notifications, circuit breakers, scans, reports, scenario seeding, routes, prompts and infrastructure: no further state protocol, or a smaller copy of one above.
