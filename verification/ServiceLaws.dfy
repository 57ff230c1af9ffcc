/** What one undisturbed call of each service leaves behind, told from the rows before it and the
    replies of Jira. */
module ServiceLaws {
  import opened Wrappers
  import opened Proposals
  import opened Transactions
  import opened JiraMutation
  import opened TransactionLaws
  import opened DatabaseStores
  import Saga

  /** What the three replies of an execution say. */
  datatype Replies = Replies(read: Reply, edit: Reply, readBack: Reply)
  {
    predicate Matched(expected: string) {
      read.Response? && read.assignee == Some(expected)
    }

    predicate Accepted(expected: string) {
      Matched(expected) && edit.Response? && edit.status != "error"
    }

    predicate Confirmed(expected: string, proposed: string) {
      Accepted(expected) && readBack.Response? && readBack.assignee == Some(proposed)
    }

    predicate Rejected(expected: string) {
      Matched(expected) && edit.Response? && edit.status == "error"
    }
  }

  /** Row `e` was settled as `state` by an execution: its proposal agrees, its write is on record, and
      an uncertain one leaves its notice. */
  predicate ExecutedAs(before: Database, after: Database, p: nat, correlation: string, now: int,
                       state: ProposalState, payload: Payload) {
    var e := |before.executions|;
    && after.executions == before.executions + [Execution(p, state, correlation, now, payload, true, None, None)]
    && OnlyProposalMoved(before.proposals, after.proposals, p)
    && after.proposals[p].state == state && after.proposals[p].version == before.proposals[p].version + 1
    && after.decisions == before.decisions
    && after.outbox == before.outbox
         + (if state == Uncertain && UncertainExecution(e) !in before.outbox then [UncertainExecution(e)] else [])
  }

  /** An approved proposal without an execution, executed undisturbed. Where the guard refuses, the
      write stays on record as attempted and nothing is called. Otherwise the proposal is verified
      exactly if the read-back confirmed the edit, stale exactly if another assignee was read first,
      failed exactly if the first read raised or the edit was rejected, and uncertain in all other
      cases; the rows, the calls and the answer say so alike. */
  lemma ExecutesExactly(db: Database, p: nat, correlation: string, now: int, environment: string,
                        allowed: set<string>, replies: seq<Reply>)
    requires p < |db.proposals| && db.proposals[p].state == Executing
    requires forall e | 0 <= e < |db.executions| :: db.executions[e].proposalId != p
    ensures
      var solo, row, e := SoloExecute(db, p, correlation, now, environment, allowed, replies), db.proposals[p],
                          |db.executions|;
      var r := Replies(ReplyAt(replies, 0), ReplyAt(replies, 1), ReplyAt(replies, 2));
      var command := Command(environment, row.projectKey, row.issue, row.expected, row.proposed);
      if !Allowed(environment, allowed, command) then
        solo == Solo(db.(executions := db.executions + [
                       Execution(p, Executing, correlation, now, Payload(None, None, true), true, None, None)]),
                     Raises(PermissionDenied), [])
      else
        && solo.result.Returned?
        && var result := solo.result.value;
        && (result.state == ExecutedVerified <==> r.Confirmed(row.expected, row.proposed))
        && (result.state == Stale <==> r.read.Response? && !r.Matched(row.expected))
        && (result.state == ExecutionFailed <==> r.read.Raised? || r.Rejected(row.expected))
        && result.state in {ExecutedVerified, Stale, ExecutionFailed, Uncertain}
        && result == ExecutionResult(e, p, result.state, correlation, result.observed, result.errorCode)
        && ExecutedAs(db, solo.db, p, correlation, now, result.state, Payload(result.observed, result.errorCode, true))
        && solo.calls == [GetIssue(row.issue), EditIssue(row.issue, row.proposed), GetIssue(row.issue)]
                         [..if !r.Matched(row.expected) then 1 else if !r.Accepted(row.expected) then 2 else 3]
  {
    var row := db.proposals[p];
    var command := Command(environment, row.projectKey, row.issue, row.expected, row.proposed);
    OutcomeExactly(command, replies);
    InsertExactly(db, p, correlation, now);
    var inserted := InsertExecution(db, p, correlation, now);
    MarkExactly(inserted.database, inserted.value);
    var marked := MarkWriteAttempted(inserted.database, inserted.value).database;
    MarkedRow(db.executions, inserted.database.executions, marked.executions,
              Execution(p, Executing, correlation, now, Payload(None, None, false), false, None, None));
    if Allowed(environment, allowed, command) {
      var result := Saga.ResultFrom(inserted.value, Outcome(command, replies).0);
      SettledLast(db, marked, p, correlation, now, inserted.value, result);
    }
  }

  lemma MarkedRow(before: seq<Execution>, inserted: seq<Execution>, marked: seq<Execution>, row: Execution)
    requires inserted == before + [row] && OnlyExecutionMoved(inserted, marked, |before|)
    requires marked[|before|] == row.(writeAttempted := true, result := Payload(None, None, true))
    ensures marked == before + [row.(writeAttempted := true, result := Payload(None, None, true))]
  {
    assert marked[..|before|] == inserted[..|before|] == before;
  }

  lemma SettledLast(db: Database, marked: Database, p: nat, correlation: string, now: int,
                    claim: ExecutionClaim, result: ExecutionResult)
    requires p < |db.proposals| && db.proposals[p].state == Executing
    requires claim.executionId == |db.executions| && claim.proposalId == p
    requires result.state in {ExecutedVerified, Stale, ExecutionFailed, Uncertain}
    requires marked == db.(executions := db.executions + [
               Execution(p, Executing, correlation, now, Payload(None, None, true), true, None, None)])
    ensures
      var tx := Finalize(marked, claim, result);
      && tx.Commit? && tx.value == result
      && ExecutedAs(db, tx.database, p, correlation, now, result.state,
                    Payload(result.observed, result.errorCode, true))
  {
    FinalizeExactly(marked, claim, result);
    var after := Finalize(marked, claim, result).database;
    assert (Executing, ExecutedVerified) in MOVES && (Executing, Stale) in MOVES
        && (Executing, ExecutionFailed) in MOVES && (Executing, Uncertain) in MOVES;
    assert after.executions[..|db.executions|] == marked.executions[..|db.executions|] == db.executions;
  }

  /** A second execution of a proposal reports the first and does nothing. */
  lemma ExecutesOnce(db: Database, p: nat, e: nat, correlation: string, now: int, environment: string,
                     allowed: set<string>, replies: seq<Reply>)
    requires e < |db.executions| && db.executions[e].proposalId == p
    requires forall k | 0 <= k < |db.executions| && db.executions[k].proposalId == p :: k == e
    ensures
      var solo, row := SoloExecute(db, p, correlation, now, environment, allowed, replies), db.executions[e];
      && solo.db == db && solo.calls == []
      && solo.result == Returned(ExecutionResult(e, p, row.state, row.correlation, row.result.observed,
                                                 row.result.errorCode))
  {
    ExistingIsReported(db, p);
  }

  /** One claim reconciled over rows that agree: the proposal and its execution take the state the
      read proves, with what was read as evidence; the lease goes, unless an UNCERTAIN execution
      stays UNCERTAIN, which changes nothing, as does a claim that was settled meanwhile. */
  lemma ReconcilesExactly(db: Database, claim: ReconciliationClaim, reply: Reply)
    requires claim.executionId < |db.executions| && claim.proposalId < |db.proposals|
    requires db.executions[claim.executionId].state == db.proposals[claim.proposalId].state
    ensures
      var tx, row := ReconcileTx(db, claim, reply), db.executions[claim.executionId];
      var seen := if reply.Response? then reply.assignee else None;
      var state := if seen == Some(claim.proposed) then ExecutedVerified
                   else if seen == Some(claim.expected) && !claim.writeAttempted then ExecutionFailed
                   else Uncertain;
      var code := if reply.Raised? then Some("jira_reconciliation_read_failed")
                  else if state == Uncertain then Some("jira_reconciliation_ambiguous")
                  else None;
      && tx.Commit?
      && tx.value == ReconciliationResult(claim.executionId, Saga.Verdict(state, seen, code))
      && if row.state == state || row.state !in {Executing, Uncertain} then tx.database == db
         else
           && Settled(db, tx.database, claim.executionId, claim.proposalId, state,
                      Payload(seen, code, claim.writeAttempted))
           && tx.database.executions[claim.executionId].leaseOwner == None
           && tx.database.executions[claim.executionId].leasedAt == None
  {
    var verdict := Saga.Classify(claim, reply);
    VerdictExactly(claim, reply);
    ResolveExactly(db, claim, verdict.state, Saga.EvidenceOf(claim, verdict));
    assert (Executing, ExecutedVerified) in MOVES && (Executing, ExecutionFailed) in MOVES
        && (Executing, Uncertain) in MOVES && (Uncertain, ExecutedVerified) in MOVES
        && (Uncertain, ExecutionFailed) in MOVES;
  }
}
