/** What each transaction does, read off the rows before and after it: when it raises and why, which
    row it writes and with what, and that nothing else changes. */
module TransactionLaws {
  import opened Wrappers
  import opened Proposals
  import opened RiskModels
  import opened Transactions
  import opened JiraMutation
  import Saga

  /** The moves a proposal can make, as pairs. */
  const MOVES: set<(ProposalState, ProposalState)> := {
    (Pending, Executing), (Pending, Rejected), (Pending, Expired), (Pending, Stale),
    (Executing, ExecutedVerified), (Executing, ExecutionFailed), (Executing, Uncertain), (Executing, Stale),
    (Uncertain, ExecutedVerified), (Uncertain, ExecutionFailed)}

  lemma TransitionsAreTheMoves(current: ProposalState, target: ProposalState)
    ensures ValidTransition(current, target) <==> (current, target) in MOVES
    ensures current in TERMINAL_STATES <==> current != Approved && forall state :: (current, state) !in MOVES
  {
    assert (Pending, Rejected) in MOVES && (Executing, Stale) in MOVES && (Uncertain, ExecutionFailed) in MOVES;
  }

  /** The rows `before` and `after` agree but for proposal `p`, of which only state and version move. */
  predicate OnlyProposalMoved(before: seq<Proposal>, after: seq<Proposal>, p: nat) {
    && p < |before| == |after|
    && after[..p] == before[..p] && after[p + 1..] == before[p + 1..]
    && after[p] == before[p].(state := after[p].state, version := after[p].version)
    && after[p].version > before[p].version
  }

  predicate OnlyExecutionMoved(before: seq<Execution>, after: seq<Execution>, e: nat) {
    e < |before| == |after| && after[..e] == before[..e] && after[e + 1..] == before[e + 1..]
  }

  // ----- create

  /** A create is refused exactly for an unchanged assignee, one that is no candidate, a confidence
      below medium or an expiry that is not in the future; a known key is answered with its row. */
  lemma CreateExactly(db: Database, c: CreateCommand)
    ensures Create(db, c).Abort? <==>
      || c.current == c.proposed || c.proposed !in c.candidates || c.expiresAt <= c.requestedAt
      || c.confidence == LowConfidence || c.confidence == InsufficientData
    ensures Create(db, c).Commit? ==>
      var after, id := Create(db, c).database, Create(db, c).value;
      && after == db.(proposals := after.proposals)
      && id < |after.proposals| && after.proposals[id].idempotencyKey == c.idempotencyKey
      && ((exists p :: 0 <= p < |db.proposals| && db.proposals[p].idempotencyKey == c.idempotencyKey) ==> after == db)
      && ((forall p | 0 <= p < |db.proposals| :: db.proposals[p].idempotencyKey != c.idempotencyKey) ==>
            && id == |db.proposals|
            && after.proposals == db.proposals + [
                 Proposal(c.projectKey, c.issue, c.current, c.proposed, Pending, c.fingerprint, c.expiresAt,
                          c.idempotencyKey, 1)])
  {
  }

  // ----- decide

  /** A new decision raises exactly for a missing proposal, another version or one no longer pending,
      in this order. Otherwise it is recorded as made, and the proposal goes to EXPIRED from the
      moment of its expiry on, else to STALE if the evidence changed, else to REJECTED or EXECUTING
      as decided. */
  lemma DecideExactly(db: Database, c: DecisionCommand, synchronised: bool)
    requires forall d | 0 <= d < |db.decisions| :: db.decisions[d].idempotencyKey != c.idempotencyKey
    ensures
      var tx, p := Decide(db, c, synchronised), c.proposalId;
      if p >= |db.proposals| then tx == Abort(ProposalNotFound)
      else if db.proposals[p].version != c.expectedVersion then tx == Abort(VersionConflict)
      else if db.proposals[p].state != Pending then tx == Abort(NotPending)
      else
        && tx.Commit? && tx.value == p
        && tx.database == db.(proposals := tx.database.proposals, decisions := tx.database.decisions)
        && tx.database.decisions == db.decisions + [Decision(p, c.approve, c.decidedAt, c.idempotencyKey)]
        && OnlyProposalMoved(db.proposals, tx.database.proposals, p)
        && tx.database.proposals[p].version == c.expectedVersion + (if synchronised then 2 else 1)
        && tx.database.proposals[p].state ==
             if c.decidedAt >= db.proposals[p].expiresAt then Expired
             else if c.fingerprint != db.proposals[p].fingerprint then Stale
             else if c.approve then Executing
             else Rejected
  {
  }

  // ----- prepare and mark

  /** The insert raises exactly for a missing proposal, one that is not EXECUTING, or one that has an
      execution, in this order. Otherwise it adds an unmarked EXECUTING row, dated and correlated as
      asked, and the claim names that row and carries the proposal's own issue and assignees. */
  lemma InsertExactly(db: Database, p: nat, correlation: string, now: int)
    ensures
      var tx := InsertExecution(db, p, correlation, now);
      if p >= |db.proposals| then tx == Abort(ProposalNotFound)
      else if db.proposals[p].state != Executing then tx == Abort(ProposalNotExecuting)
      else if exists e :: 0 <= e < |db.executions| && db.executions[e].proposalId == p then tx == Abort(UniqueViolation)
      else
        && tx.Commit?
        && tx.database == db.(executions := db.executions + [
             Execution(p, Executing, correlation, now, Payload(None, None, false), false, None, None)])
        && tx.value == ExecutionClaim(|db.executions|, p, db.proposals[p].projectKey, db.proposals[p].issue,
                                      db.proposals[p].expected, db.proposals[p].proposed, correlation)
  {
  }

  /** The existing execution is reported as stored: its own state and what its settling recorded. */
  lemma ExistingIsReported(db: Database, p: nat)
    ensures ReadExisting(db, p).Some? <==> exists e :: 0 <= e < |db.executions| && db.executions[e].proposalId == p
    ensures ReadExisting(db, p).Some? ==>
      var r := ReadExisting(db, p).value;
      && r.executionId < |db.executions| && r.proposalId == p == db.executions[r.executionId].proposalId
      && r.state == db.executions[r.executionId].state
      && r.correlation == db.executions[r.executionId].correlation
      && r.observed == db.executions[r.executionId].result.observed
      && r.errorCode == db.executions[r.executionId].result.errorCode
  {
  }

  lemma MarkExactly(db: Database, claim: ExecutionClaim)
    ensures
      var tx, e := MarkWriteAttempted(db, claim), claim.executionId;
      if e >= |db.executions| || db.executions[e].state != Executing then tx == Abort(ExecutionNotActive)
      else
        && tx.Commit? && tx.database == db.(executions := tx.database.executions)
        && OnlyExecutionMoved(db.executions, tx.database.executions, e)
        && tx.database.executions[e]
             == db.executions[e].(writeAttempted := true, result := Payload(None, None, true))
  {
  }

  // ----- finalize and resolve

  /** What settling execution `e` of proposal `p` does to the rows: both take the state, the version
      rises by one, the payload is stored, and an uncertain one leaves its notice, once. */
  predicate Settled(before: Database, after: Database, e: nat, p: nat, state: ProposalState, payload: Payload) {
    && e < |before.executions| && OnlyExecutionMoved(before.executions, after.executions, e)
    && after.executions[e].state == state && after.executions[e].result == payload
    && after.executions[e] == before.executions[e].(
         state := state, result := payload,
         leaseOwner := after.executions[e].leaseOwner, leasedAt := after.executions[e].leasedAt)
    && OnlyProposalMoved(before.proposals, after.proposals, p)
    && after.proposals[p].state == state && after.proposals[p].version == before.proposals[p].version + 1
    && after.decisions == before.decisions
    && after.outbox == before.outbox
         + (if state == Uncertain && UncertainExecution(e) !in before.outbox then [UncertainExecution(e)] else [])
  }

  /** An execution no longer EXECUTING is reported as stored; an open one takes the result's state,
      observation and code, keeps its lease, and records whether its write was attempted. */
  lemma FinalizeExactly(db: Database, claim: ExecutionClaim, result: ExecutionResult)
    ensures
      var tx, e, p := Finalize(db, claim, result), claim.executionId, claim.proposalId;
      if e >= |db.executions| || p >= |db.proposals| then tx == Abort(StateNotFound)
      else if db.executions[e].state != Executing then
        && tx.Commit? && tx.database == db && tx.value.state == db.executions[e].state
        && tx.value.observed == db.executions[e].result.observed
        && tx.value.errorCode == db.executions[e].result.errorCode
      else if (db.proposals[p].state, result.state) !in MOVES then tx == Abort(IllegalTransition)
      else
        && tx.Commit? && tx.value == result
        && Settled(db, tx.database, e, p, result.state,
                   Payload(result.observed, result.errorCode, db.executions[e].writeAttempted))
        && tx.database.executions[e].leaseOwner == db.executions[e].leaseOwner
        && tx.database.executions[e].leasedAt == db.executions[e].leasedAt
  {
    if claim.proposalId < |db.proposals| {
      TransitionsAreTheMoves(db.proposals[claim.proposalId].state, result.state);
    }
  }

  /** A state already there and a terminal one stay; an open execution takes the verdict's state and
      evidence and loses its lease. */
  lemma ResolveExactly(db: Database, claim: ReconciliationClaim, state: ProposalState, evidence: Payload)
    ensures
      var tx, e, p := Resolve(db, claim, state, evidence), claim.executionId, claim.proposalId;
      if e >= |db.executions| || p >= |db.proposals| then tx == Abort(StateNotFound)
      else if db.executions[e].state == state || db.executions[e].state !in {Executing, Uncertain} then
        tx == Commit(db, ())
      else if (db.proposals[p].state, state) !in MOVES then tx == Abort(IllegalTransition)
      else
        && tx.Commit? && Settled(db, tx.database, e, p, state, evidence)
        && tx.database.executions[e].leaseOwner == None && tx.database.executions[e].leasedAt == None
  {
    if claim.proposalId < |db.proposals| { TransitionsAreTheMoves(db.proposals[claim.proposalId].state, state); }
  }

  // ----- the verdict

  /** The verdict for every claim and every reply: verified exactly if the proposed assignee was
      read, failed exactly if the expected one was and the claim is unmarked, uncertain otherwise;
      with what was read, and a code exactly for a failed read and for an ambiguous one. */
  lemma VerdictExactly(claim: ReconciliationClaim, reply: Reply)
    ensures
      var verdict := Saga.Classify(claim, reply);
      var seen := if reply.Response? then reply.assignee else None;
      && (verdict.state == ExecutedVerified <==> seen == Some(claim.proposed))
      && (verdict.state == ExecutionFailed <==>
            seen != Some(claim.proposed) && seen == Some(claim.expected) && !claim.writeAttempted)
      && verdict.state in {ExecutedVerified, ExecutionFailed, Uncertain}
      && verdict.observed == seen
      && verdict.errorCode ==
           (if reply.Raised? then Some("jira_reconciliation_read_failed")
            else if verdict.state == Uncertain then Some("jira_reconciliation_ambiguous")
            else None)
      && Saga.EvidenceOf(claim, verdict) == Payload(seen, verdict.errorCode, claim.writeAttempted)
  {
  }

  // ----- leases and claims

  /** A claim is the row and its proposal as they are when it is made. */
  lemma ClaimIsASnapshot(db: Database, e: nat)
    requires e < |db.executions| && db.executions[e].proposalId < |db.proposals|
    ensures
      var claim, row := ClaimOf(db, e), db.executions[e];
      && claim.executionId == e && claim.proposalId == row.proposalId
      && claim.correlation == row.correlation && claim.writeAttempted == row.writeAttempted
      && claim.issue == db.proposals[row.proposalId].issue
      && claim.expected == db.proposals[row.proposalId].expected
      && claim.proposed == db.proposals[row.proposalId].proposed
  {
  }

  /** Leasing writes the worker and the time into exactly the given rows. */
  lemma {:induction false} LeasesExactly(db: Database, rows: seq<nat>, worker: string, now: int)
    requires forall e | e in rows :: e < |db.executions|
    ensures
      var after := LeaseRows(db, rows, worker, now);
      && after == db.(executions := after.executions)
      && |after.executions| == |db.executions|
      && forall e | 0 <= e < |db.executions| ::
           after.executions[e] == if e in rows then db.executions[e].(leaseOwner := Some(worker), leasedAt := Some(now))
                                  else db.executions[e]
    decreases |rows|
  {
    if rows == [] {
    } else {
      var shorter, last := rows[..|rows| - 1], rows[|rows| - 1];
      assert rows == shorter + [last];
      assert forall e | e in shorter :: e in rows;
      LeasesExactly(db, shorter, worker, now);
    }
  }

  /** An outbox append keeps what is there, adds the key if it is new, and never twice. */
  lemma AppendOnce(outbox: seq<ConsumerKey>, key: ConsumerKey)
    ensures outbox <= OutboxAppend(outbox, key) && key in OutboxAppend(outbox, key)
    ensures multiset(OutboxAppend(outbox, key)) ==
      if key in outbox then multiset(outbox) else multiset(outbox) + multiset{key}
    ensures OutboxAppend(OutboxAppend(outbox, key), key) == OutboxAppend(outbox, key)
  {
  }
}
