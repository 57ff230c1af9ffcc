/** The rows of one environment and its short transactions, each as a function from the rows
    before to the rows after. A table is a sequence whose index is the row's identifier: rows are
    never deleted, and a fresh identifier is a fresh index. */
module Transactions {
  import opened Wrappers
  import opened Proposals
  import opened RiskModels

  datatype Proposal = Proposal(
    projectKey: string,
    issue: string,
    expected: string,
    proposed: string,
    state: ProposalState,
    fingerprint: string,
    expiresAt: int,
    idempotencyKey: string,
    version: nat)

  datatype Payload = Payload(observed: Option<string>, errorCode: Option<string>, writeAttempted: bool)

  datatype Execution = Execution(
    proposalId: nat,
    state: ProposalState,
    correlation: string,
    createdAt: int,
    result: Payload,
    writeAttempted: bool,
    leaseOwner: Option<string>,
    leasedAt: Option<int>)

  datatype Decision = Decision(proposalId: nat, approve: bool, decidedAt: int, idempotencyKey: string)

  /** The consumer key of an outbox event; the table is unique in it. */
  datatype ConsumerKey = UncertainExecution(executionId: nat) | OtherKey(key: string)

  datatype Database = Database(
    proposals: seq<Proposal>,
    executions: seq<Execution>,
    decisions: seq<Decision>,
    outbox: seq<ConsumerKey>)

  const EMPTY: Database := Database([], [], [], [])

  datatype Error =
    | InvalidCommand
    | ProposalNotFound
    | VersionConflict
    | NotPending
    | ProposalNotExecuting
    | UniqueViolation
    | ExecutionNotActive
    | StateNotFound
    | IllegalTransition

  datatype CreateCommand = CreateCommand(
    projectKey: string,
    issue: string,
    current: string,
    proposed: string,
    candidates: seq<string>,
    confidence: ConfidenceLevel,
    fingerprint: string,
    idempotencyKey: string,
    requestedAt: int,
    expiresAt: int)

  datatype DecisionCommand = DecisionCommand(
    proposalId: nat,
    expectedVersion: nat,
    approve: bool,
    idempotencyKey: string,
    fingerprint: string,
    decidedAt: int)

  datatype ExecutionClaim = ExecutionClaim(
    executionId: nat,
    proposalId: nat,
    projectKey: string,
    issue: string,
    expected: string,
    proposed: string,
    correlation: string)

  datatype ExecutionResult = ExecutionResult(
    executionId: nat,
    proposalId: nat,
    state: ProposalState,
    correlation: string,
    observed: Option<string>,
    errorCode: Option<string>)

  datatype ReconciliationClaim = ReconciliationClaim(
    executionId: nat,
    proposalId: nat,
    issue: string,
    expected: string,
    proposed: string,
    correlation: string,
    writeAttempted: bool)

  // ----- lookups

  /** The first row satisfying a key, as the index that identifies it. */
  function FindProposal(proposals: seq<Proposal>, key: string): (found: Option<nat>)
    ensures found.Some? ==> found.value < |proposals| && proposals[found.value].idempotencyKey == key
    ensures found.None? ==> forall i | 0 <= i < |proposals| :: proposals[i].idempotencyKey != key
  {
    if proposals == [] then None
    else
      var last := |proposals| - 1;
      match FindProposal(proposals[..last], key)
      case Some(i) => Some(i)
      case None => if proposals[last].idempotencyKey == key then Some(last) else None
  }

  function FindDecision(decisions: seq<Decision>, key: string): (found: Option<nat>)
    ensures found.Some? ==> found.value < |decisions| && decisions[found.value].idempotencyKey == key
    ensures found.None? ==> forall i | 0 <= i < |decisions| :: decisions[i].idempotencyKey != key
  {
    if decisions == [] then None
    else
      var last := |decisions| - 1;
      match FindDecision(decisions[..last], key)
      case Some(i) => Some(i)
      case None => if decisions[last].idempotencyKey == key then Some(last) else None
  }

  function FindExecution(executions: seq<Execution>, proposalId: nat): (found: Option<nat>)
    ensures found.Some? ==> found.value < |executions| && executions[found.value].proposalId == proposalId
    ensures found.None? ==> forall i | 0 <= i < |executions| :: executions[i].proposalId != proposalId
  {
    if executions == [] then None
    else
      var last := |executions| - 1;
      match FindExecution(executions[..last], proposalId)
      case Some(i) => Some(i)
      case None => if executions[last].proposalId == proposalId then Some(last) else None
  }

  // ----- proposals

  predicate ValidCommand(command: CreateCommand) {
    && command.current != command.proposed
    && command.proposed in command.candidates
    && command.confidence in {MediumConfidence, HighConfidence}
    && command.requestedAt < command.expiresAt
  }

  function Create(db: Database, command: CreateCommand): Tx<Database, nat, Error> {
    if !ValidCommand(command) then Abort(InvalidCommand)
    else
      match FindProposal(db.proposals, command.idempotencyKey)
      case Some(existing) => Commit(db, existing)
      case None =>
        Commit(db.(proposals := db.proposals + [NewProposal(command)]), |db.proposals|)
  }

  function NewProposal(command: CreateCommand): Proposal {
    Proposal(command.projectKey, command.issue, command.current, command.proposed, Pending,
             command.fingerprint, command.expiresAt, command.idempotencyKey, 1)
  }

  predicate IsExpired(expiresAt: int, now: int) {
    expiresAt <= now
  }

  function DecisionTarget(proposal: Proposal, command: DecisionCommand): ProposalState {
    if IsExpired(proposal.expiresAt, command.decidedAt) then Expired
    else if proposal.fingerprint != command.fingerprint then Stale
    else if !command.approve then Rejected
    else Executing
  }

  /** `synchronised` says whether the bulk update also refreshed the loaded object: if it did,
      the increment on the object comes on top of the one in the update. */
  function Decide(db: Database, command: DecisionCommand, synchronised: bool): Tx<Database, nat, Error> {
    match FindDecision(db.decisions, command.idempotencyKey)
    case Some(duplicate) => Commit(db, db.decisions[duplicate].proposalId)
    case None =>
      if command.proposalId >= |db.proposals| then Abort(ProposalNotFound)
      else
        var row := db.proposals[command.proposalId];
        var target := DecisionTarget(row, command);
        if row.version != command.expectedVersion then Abort(VersionConflict)
        else if row.state != Pending then Abort(NotPending)
        else if !ValidTransition(row.state, target) then Abort(IllegalTransition)
        else
          var decided := row.(state := target, version := row.version + if synchronised then 2 else 1);
          Commit(
            db.(proposals := db.proposals[command.proposalId := decided],
                decisions := db.decisions + [
                  Decision(command.proposalId, command.approve, command.decidedAt, command.idempotencyKey)]),
            command.proposalId)
  }

  // ----- executions

  function ResultOf(executions: seq<Execution>, executionId: nat): ExecutionResult
    requires executionId < |executions|
  {
    var row := executions[executionId];
    ExecutionResult(executionId, row.proposalId, row.state, row.correlation,
                    row.result.observed, row.result.errorCode)
  }

  /** The unlocked first read of `prepare`. */
  function ReadExisting(db: Database, proposalId: nat): Option<ExecutionResult> {
    match FindExecution(db.executions, proposalId)
    case Some(e) => Some(ResultOf(db.executions, e))
    case None => None
  }

  /** The locked second half of `prepare`: the insert fails on the unique key if another process
      inserted since the unlocked read. */
  function InsertExecution(db: Database, proposalId: nat, correlation: string, now: int)
    : Tx<Database, ExecutionClaim, Error>
  {
    if proposalId >= |db.proposals| then Abort(ProposalNotFound)
    else if db.proposals[proposalId].state != Executing then Abort(ProposalNotExecuting)
    else if FindExecution(db.executions, proposalId).Some? then Abort(UniqueViolation)
    else
      var proposal := db.proposals[proposalId];
      var row := Execution(proposalId, Executing, correlation, now, Payload(None, None, false), false, None, None);
      Commit(
        db.(executions := db.executions + [row]),
        ExecutionClaim(|db.executions|, proposalId, proposal.projectKey, proposal.issue, proposal.expected,
                       proposal.proposed, correlation))
  }

  function MarkWriteAttempted(db: Database, claim: ExecutionClaim): Tx<Database, (), Error> {
    if claim.executionId >= |db.executions| || db.executions[claim.executionId].state != Executing then
      Abort(ExecutionNotActive)
    else
      var row := db.executions[claim.executionId];
      Commit(
        db.(executions := db.executions[claim.executionId :=
              row.(writeAttempted := true, result := Payload(None, None, true))]),
        ())
  }

  /** Idempotent append: a consumer key already present is left alone. */
  function OutboxAppend(outbox: seq<ConsumerKey>, key: ConsumerKey): seq<ConsumerKey> {
    if key in outbox then outbox else outbox + [key]
  }

  /** Moves an execution and its proposal to `target` together, raising the proposal's version,
      and queues the manager's notice when the target is UNCERTAIN. */
  function Settle(db: Database, executionId: nat, proposalId: nat, settled: Execution): Database
    requires executionId < |db.executions| && proposalId < |db.proposals|
  {
    var proposal := db.proposals[proposalId];
    db.(executions := db.executions[executionId := settled],
        proposals := db.proposals[proposalId :=
          proposal.(state := settled.state, version := proposal.version + 1)],
        outbox := if settled.state == Uncertain
                  then OutboxAppend(db.outbox, UncertainExecution(executionId))
                  else db.outbox)
  }

  function Finalize(db: Database, claim: ExecutionClaim, result: ExecutionResult)
    : Tx<Database, ExecutionResult, Error>
  {
    if claim.executionId >= |db.executions| || claim.proposalId >= |db.proposals| then Abort(StateNotFound)
    else
      var row := db.executions[claim.executionId];
      if row.state != Executing then Commit(db, ResultOf(db.executions, claim.executionId))
      else if !ValidTransition(db.proposals[claim.proposalId].state, result.state) then Abort(IllegalTransition)
      else
        var settled := row.(state := result.state,
                            result := Payload(result.observed, result.errorCode, row.writeAttempted));
        Commit(Settle(db, claim.executionId, claim.proposalId, settled), result)
  }

  // ----- reconciliation

  predicate Abandoned(row: Execution, cutoff: int, leaseExpiry: int) {
    && row.state in {Executing, Uncertain}
    && row.createdAt <= cutoff
    && (row.leasedAt.None? || row.leasedAt.value < leaseExpiry)
  }

  /** A row locked by a lease query, with its lease written. */
  function LeaseRow(db: Database, executionId: nat, worker: string, now: int): (leased: Database)
    requires executionId < |db.executions|
    ensures |leased.executions| == |db.executions|
  {
    var row := db.executions[executionId];
    db.(executions := db.executions[executionId := row.(leaseOwner := Some(worker), leasedAt := Some(now))])
  }

  function LeaseRows(db: Database, rows: seq<nat>, worker: string, now: int): (leased: Database)
    requires forall e | e in rows :: e < |db.executions|
    ensures |leased.executions| == |db.executions|
    decreases |rows|
  {
    if rows == [] then db
    else
      var last := |rows| - 1;
      assert rows[last] in rows && forall e | e in rows[..last] :: e in rows;
      LeaseRow(LeaseRows(db, rows[..last], worker, now), rows[last], worker, now)
  }

  /** The claim is a snapshot: later changes of the row do not reach it. */
  function ClaimOf(db: Database, executionId: nat): ReconciliationClaim
    requires executionId < |db.executions|
    requires db.executions[executionId].proposalId < |db.proposals|
  {
    var row := db.executions[executionId];
    var proposal := db.proposals[row.proposalId];
    ReconciliationClaim(executionId, row.proposalId, proposal.issue, proposal.expected, proposal.proposed,
                        row.correlation, row.writeAttempted)
  }

  function Resolve(db: Database, claim: ReconciliationClaim, state: ProposalState, evidence: Payload)
    : Tx<Database, (), Error>
  {
    if claim.executionId >= |db.executions| || claim.proposalId >= |db.proposals| then Abort(StateNotFound)
    else
      var row := db.executions[claim.executionId];
      if row.state == state || row.state !in {Executing, Uncertain} then Commit(db, ())
      else if !ValidTransition(db.proposals[claim.proposalId].state, state) then Abort(IllegalTransition)
      else
        var settled := row.(state := state, result := evidence, leaseOwner := None, leasedAt := None);
        Commit(Settle(db, claim.executionId, claim.proposalId, settled), ())
  }
}
