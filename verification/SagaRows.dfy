/** What each transaction keeps of the rows: an execution and its proposal always have the same
    state, no proposal has two executions, and rows only ever move forward. */
module SagaRows {
  import opened Wrappers
  import opened Proposals
  import opened Transactions

  const EXECUTION_STATES: set<ProposalState> :=
    {Executing, ExecutedVerified, ExecutionFailed, Uncertain, Stale}

  predicate RowFits(db: Database, row: Execution) {
    && row.proposalId < |db.proposals|
    && row.state == db.proposals[row.proposalId].state
    && row.state in EXECUTION_STATES
  }

  ghost predicate RowsAgree(db: Database) {
    && (forall e | 0 <= e < |db.executions| :: RowFits(db, db.executions[e]))
    && (forall e, f | 0 <= e < f < |db.executions| :: db.executions[e].proposalId != db.executions[f].proposalId)
    && (forall p | 0 <= p < |db.proposals| ::
          && db.proposals[p].state != Approved
          && db.proposals[p].expected != db.proposals[p].proposed)
  }

  // ----- forward movement

  predicate ProposalForward(before: Proposal, after: Proposal) {
    && after == before.(state := after.state, version := after.version)
    && before.version <= after.version
    && (after.state == before.state || before.version < after.version)
    && (before.state in TERMINAL_STATES ==> after == before)
  }

  predicate ExecutionForward(before: Execution, after: Execution) {
    && after.proposalId == before.proposalId
    && (before.writeAttempted ==> after.writeAttempted)
    && (before.state != Executing ==> after.state != Executing && after.writeAttempted == before.writeAttempted)
    && (before.state in TERMINAL_STATES ==> after.state == before.state && after.result == before.result)
  }

  ghost predicate Forward(before: Database, after: Database) {
    && |before.proposals| <= |after.proposals|
    && |before.executions| <= |after.executions|
    && (forall p | 0 <= p < |before.proposals| :: ProposalForward(before.proposals[p], after.proposals[p]))
    && (forall e | 0 <= e < |before.executions| :: ExecutionForward(before.executions[e], after.executions[e]))
  }

  lemma ForwardTransitive(a: Database, b: Database, c: Database)
    requires Forward(a, b) && Forward(b, c)
    ensures Forward(a, c)
  {
  }

  // ----- the claim of a process against the rows

  predicate Fits(db: Database, executionId: nat, proposalId: nat, issue: string, expected: string, proposed: string) {
    && executionId < |db.executions|
    && db.executions[executionId].proposalId == proposalId
    && proposalId < |db.proposals|
    && db.proposals[proposalId].issue == issue
    && db.proposals[proposalId].expected == expected
    && db.proposals[proposalId].proposed == proposed
  }

  predicate ClaimFits(db: Database, claim: ExecutionClaim) {
    Fits(db, claim.executionId, claim.proposalId, claim.issue, claim.expected, claim.proposed)
  }

  predicate SnapshotFits(db: Database, claim: ReconciliationClaim) {
    Fits(db, claim.executionId, claim.proposalId, claim.issue, claim.expected, claim.proposed)
  }

  lemma FitsForward(before: Database, after: Database, e: nat, p: nat,
                    issue: string, expected: string, proposed: string)
    requires Forward(before, after) && Fits(before, e, p, issue, expected, proposed)
    ensures Fits(after, e, p, issue, expected, proposed)
  {
  }

  // ----- the transactions one by one

  lemma CreateKeepsRows(db: Database, command: CreateCommand)
    requires RowsAgree(db) && Create(db, command).Commit?
    ensures RowsAgree(Create(db, command).database) && Forward(db, Create(db, command).database)
  {
  }

  lemma DecideKeepsRows(db: Database, command: DecisionCommand, synchronised: bool)
    requires RowsAgree(db) && Decide(db, command, synchronised).Commit?
    ensures RowsAgree(Decide(db, command, synchronised).database)
    ensures Forward(db, Decide(db, command, synchronised).database)
  {
    var after := Decide(db, command, synchronised).database;
    assert forall e | 0 <= e < |db.executions| :: RowFits(db, db.executions[e]) ==> RowFits(after, after.executions[e]);
  }

  lemma InsertKeepsRows(db: Database, proposalId: nat, correlation: string, now: int)
    requires RowsAgree(db) && InsertExecution(db, proposalId, correlation, now).Commit?
    ensures RowsAgree(InsertExecution(db, proposalId, correlation, now).database)
    ensures Forward(db, InsertExecution(db, proposalId, correlation, now).database)
    ensures ClaimFits(InsertExecution(db, proposalId, correlation, now).database,
                      InsertExecution(db, proposalId, correlation, now).value)
  {
  }

  lemma MarkKeepsRows(db: Database, claim: ExecutionClaim)
    requires RowsAgree(db) && MarkWriteAttempted(db, claim).Commit?
    ensures RowsAgree(MarkWriteAttempted(db, claim).database)
    ensures Forward(db, MarkWriteAttempted(db, claim).database)
  {
  }

  lemma SettleKeepsRows(db: Database, e: nat, p: nat, settled: Execution)
    requires RowsAgree(db) && e < |db.executions| && db.executions[e].proposalId == p
    requires settled.proposalId == p && settled.writeAttempted == db.executions[e].writeAttempted
    requires ValidTransition(db.executions[e].state, settled.state)
    ensures p < |db.proposals|
    ensures RowsAgree(Settle(db, e, p, settled)) && Forward(db, Settle(db, e, p, settled))
  {
    assert RowFits(db, db.executions[e]);
    var after := Settle(db, e, p, settled);
    forall f | 0 <= f < |after.executions|
      ensures RowFits(after, after.executions[f])
    {
      assert RowFits(db, db.executions[f]);
    }
  }

  lemma LeaseKeepsRows(db: Database, e: nat, worker: string, now: int)
    requires RowsAgree(db) && e < |db.executions|
    ensures RowsAgree(LeaseRow(db, e, worker, now)) && Forward(db, LeaseRow(db, e, worker, now))
  {
  }

  /** A lease writes nothing but the lease columns. */
  predicate SameButLease(before: Execution, after: Execution) {
    after == before.(leaseOwner := after.leaseOwner, leasedAt := after.leasedAt)
  }

  lemma {:induction false} LeasesKeepRows(db: Database, rows: seq<nat>, worker: string, now: int)
    requires RowsAgree(db) && forall e | e in rows :: e < |db.executions|
    ensures RowsAgree(LeaseRows(db, rows, worker, now)) && Forward(db, LeaseRows(db, rows, worker, now))
    ensures LeaseRows(db, rows, worker, now) == db.(executions := LeaseRows(db, rows, worker, now).executions)
    ensures forall e | 0 <= e < |db.executions| ::
              SameButLease(db.executions[e], LeaseRows(db, rows, worker, now).executions[e])
    ensures forall e | e in rows ::
              && LeaseRows(db, rows, worker, now).executions[e].leaseOwner == Some(worker)
              && LeaseRows(db, rows, worker, now).executions[e].leasedAt == Some(now)
    ensures forall e | 0 <= e < |db.executions| && e !in rows ::
              LeaseRows(db, rows, worker, now).executions[e] == db.executions[e]
    decreases |rows|
  {
    if rows == [] {
    } else {
      var last := |rows| - 1;
      assert rows == rows[..last] + [rows[last]];
      assert rows[last] in rows && forall e | e in rows[..last] :: e in rows;
      LeasesKeepRows(db, rows[..last], worker, now);
      var before := LeaseRows(db, rows[..last], worker, now);
      LeaseKeepsRows(before, rows[last], worker, now);
      ForwardTransitive(db, before, LeaseRow(before, rows[last], worker, now));
    }
  }
}
