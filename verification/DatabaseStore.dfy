/** The stores as objects: tables that transactions update in place, and the two services that run
    transactions around Jira calls. Every method is held to the transaction it stands for. */
module DatabaseStores {
  import opened Wrappers
  import opened Proposals
  import opened JiraMutation
  import LeaseQueries
  import Saga
  import T = Transactions

  type Error = T.Error

  /** A transaction took effect as a whole, or raised and left nothing behind. */
  predicate Ran<V(==)>(before: T.Database, tx: Tx<T.Database, V, Error>, after: T.Database, result: Result<V, Error>) {
    match tx
    case Commit(db, value) => after == db && result == Returned(value)
    case Abort(error) => after == before && result == Raises(error)
  }

  datatype Prepared = Claimed(claim: T.ExecutionClaim) | Existing(result: T.ExecutionResult)

  function PrepareTx(db: T.Database, proposalId: nat, correlation: string, now: int): Tx<T.Database, Prepared, Error> {
    match T.ReadExisting(db, proposalId)
    case Some(result) => Commit(db, Existing(result))
    case None =>
      match T.InsertExecution(db, proposalId, correlation, now)
      case Commit(after, claim) => Commit(after, Claimed(claim))
      case Abort(error) => Abort(error)
  }

  class DatabaseStore {
    var proposals: seq<T.Proposal>
    var executions: seq<T.Execution>
    var decisions: seq<T.Decision>
    var outbox: seq<T.ConsumerKey>
    const abandonedAfter: nat
    const leaseDuration: nat

    ghost function View(): T.Database
      reads this
    {
      T.Database(proposals, executions, decisions, outbox)
    }

    /** Two minutes and one minute, in seconds, unless told otherwise. */
    constructor (abandonedAfter: nat := 120, leaseDuration: nat := 60)
      ensures View() == T.EMPTY
      ensures this.abandonedAfter == abandonedAfter && this.leaseDuration == leaseDuration
    {
      proposals, executions, decisions, outbox := [], [], [], [];
      this.abandonedAfter, this.leaseDuration := abandonedAfter, leaseDuration;
    }

    method Create(command: T.CreateCommand) returns (result: Result<nat, Error>)
      modifies this
      ensures Ran(old(View()), T.Create(old(View()), command), View(), result)
    {
      if !T.ValidCommand(command) {
        return Raises(T.InvalidCommand);
      }
      var existing := T.FindProposal(proposals, command.idempotencyKey);
      if existing.Some? {
        return Returned(existing.value);
      }
      result := Returned(|proposals|);
      proposals := proposals + [T.NewProposal(command)];
    }

    method Decide(command: T.DecisionCommand, synchronised: bool) returns (result: Result<nat, Error>)
      modifies this
      ensures Ran(old(View()), T.Decide(old(View()), command, synchronised), View(), result)
    {
      var duplicate := T.FindDecision(decisions, command.idempotencyKey);
      if duplicate.Some? {
        return Returned(decisions[duplicate.value].proposalId);
      }
      var pid := command.proposalId;
      if pid >= |proposals| {
        return Raises(T.ProposalNotFound);
      }
      var record := proposals[pid];
      if record.version != command.expectedVersion {
        return Raises(T.VersionConflict);
      }
      if record.state != Pending {
        return Raises(T.NotPending);
      }
      var target;
      if T.IsExpired(record.expiresAt, command.decidedAt) {
        target := Expired;
      } else if record.fingerprint != command.fingerprint {
        target := Stale;
      } else if !command.approve {
        target := Rejected;
      } else {
        target := Executing;
      }
      // the bulk compare-and-set; the row lock makes it match exactly one row
      proposals := proposals[pid := record.(state := target, version := record.version + 1)];
      decisions := decisions + [T.Decision(pid, command.approve, command.decidedAt, command.idempotencyKey)];
      // the loaded object is assigned as well, from whichever version it holds
      if synchronised {
        record := record.(version := record.version + 1);
      }
      proposals := proposals[pid := record.(state := target, version := record.version + 1)];
      return Returned(pid);
    }

    method Prepare(proposalId: nat, correlation: string, now: int) returns (result: Result<Prepared, Error>)
      modifies this
      ensures Ran(old(View()), PrepareTx(old(View()), proposalId, correlation, now), View(), result)
    {
      var existing := T.FindExecution(executions, proposalId);
      if existing.Some? {
        return Returned(Existing(T.ResultOf(executions, existing.value)));
      }
      if proposalId >= |proposals| {
        return Raises(T.ProposalNotFound);
      }
      var proposal := proposals[proposalId];
      if proposal.state != Executing {
        return Raises(T.ProposalNotExecuting);
      }
      var claim := T.ExecutionClaim(|executions|, proposalId, proposal.projectKey, proposal.issue,
                                    proposal.expected, proposal.proposed, correlation);
      executions := executions + [
        T.Execution(proposalId, Executing, correlation, now, T.Payload(None, None, false), false, None, None)];
      return Returned(Claimed(claim));
    }

    method MarkWriteAttempted(claim: T.ExecutionClaim) returns (result: Result<(), Error>)
      modifies this
      ensures Ran(old(View()), T.MarkWriteAttempted(old(View()), claim), View(), result)
    {
      if claim.executionId >= |executions| || executions[claim.executionId].state != Executing {
        return Raises(T.ExecutionNotActive);
      }
      var execution := executions[claim.executionId];
      executions := executions[claim.executionId :=
        execution.(writeAttempted := true, result := T.Payload(None, None, true))];
      return Returned(());
    }

    method AppendToOutbox(key: T.ConsumerKey)
      modifies this`outbox
      ensures outbox == T.OutboxAppend(old(outbox), key)
    {
      if key !in outbox {
        outbox := outbox + [key];
      }
    }

    method Finalize(claim: T.ExecutionClaim, outcome: T.ExecutionResult)
      returns (result: Result<T.ExecutionResult, Error>)
      modifies this
      ensures Ran(old(View()), T.Finalize(old(View()), claim, outcome), View(), result)
    {
      if claim.executionId >= |executions| || claim.proposalId >= |proposals| {
        return Raises(T.StateNotFound);
      }
      var execution, proposal := executions[claim.executionId], proposals[claim.proposalId];
      if execution.state != Executing {
        return Returned(T.ResultOf(executions, claim.executionId));
      }
      if !ValidTransition(proposal.state, outcome.state) {
        return Raises(T.IllegalTransition);
      }
      execution := execution.(state := outcome.state,
                              result := T.Payload(outcome.observed, outcome.errorCode, execution.writeAttempted));
      executions := executions[claim.executionId := execution];
      proposals := proposals[claim.proposalId := proposal.(state := outcome.state, version := proposal.version + 1)];
      if outcome.state == Uncertain {
        AppendToOutbox(T.UncertainExecution(claim.executionId));
      }
      return Returned(outcome);
    }

    /** What a lease transaction would do to the rows, and the claims it would hand out. */
    ghost function Leased(locked: set<nat>, limit: nat, worker: string, now: int)
      : (T.Database, seq<T.ReconciliationClaim>)
      reads this
    {
      LeaseQueries.LeaseTx(View(), now - abandonedAfter, now - leaseDuration, locked, limit, worker, now)
    }

    /** The rows another transaction holds, `locked`, are skipped. */
    method LeaseAbandoned(locked: set<nat>, limit: nat, worker: string, now: int)
      returns (claims: seq<T.ReconciliationClaim>)
      modifies this
      ensures (View(), claims) == old(Leased(locked, limit, worker, now))
    {
      var db := T.Database(proposals, executions, decisions, outbox);
      LeaseQueries.QueryTakesTheOldest(db, now - abandonedAfter, now - leaseDuration, locked, limit);
      var rows := LeaseQueries.LeaseQuery(db, now - abandonedAfter, now - leaseDuration, locked, limit);
      claims := LeaseEach(rows, worker, now);
    }

    /** The loop over the rows the query locked. */
    method LeaseEach(rows: seq<nat>, worker: string, now: int) returns (claims: seq<T.ReconciliationClaim>)
      requires forall i, j | 0 <= i < j < |rows| :: rows[i] != rows[j]
      requires forall e | e in rows :: e < |executions| && executions[e].proposalId < |proposals|
      modifies this
      ensures View() == T.LeaseRows(old(View()), rows, worker, now)
      ensures claims == Saga.ClaimsOf(old(View()), rows)
    {
      claims := [];
      for i := 0 to |rows|
        invariant |executions| == |old(executions)| && proposals == old(proposals)
        invariant forall e | e in rows[..i] :: e < |old(executions)|
        invariant View() == T.LeaseRows(old(View()), rows[..i], worker, now)
        invariant claims == Saga.ClaimsOf(old(View()), rows)[..i]
        invariant forall k | i <= k < |rows| :: rows[k] in rows && executions[rows[k]] == old(executions)[rows[k]]
      {
        var e := rows[i];
        assert e in rows && rows[..i + 1][..i] == rows[..i];
        var execution := executions[e];
        executions := executions[e := execution.(leaseOwner := Some(worker), leasedAt := Some(now))];
        claims := claims + [T.ClaimOf(T.Database(proposals, executions, decisions, outbox), e)];
      }
      assert rows[..|rows|] == rows;
    }

    method LeaseProposal(proposalId: nat, worker: string, now: int) returns (claim: Option<T.ReconciliationClaim>)
      modifies this
      ensures
        var found := T.FindExecution(old(executions), proposalId);
        if found.Some? && old(executions)[found.value].state == Uncertain && proposalId < |old(proposals)| then
          && View() == T.LeaseRow(old(View()), found.value, worker, now)
          && claim == Some(T.ClaimOf(old(View()), found.value))
        else
          View() == old(View()) && claim == None
    {
      var found := T.FindExecution(executions, proposalId);
      if found.None? || executions[found.value].state != Uncertain || proposalId >= |proposals| {
        return None;
      }
      var e := found.value;
      executions := executions[e := executions[e].(leaseOwner := Some(worker), leasedAt := Some(now))];
      return Some(T.ClaimOf(T.Database(proposals, executions, decisions, outbox), e));
    }

    method Resolve(claim: T.ReconciliationClaim, state: ProposalState, evidence: T.Payload)
      returns (result: Result<(), Error>)
      modifies this
      ensures Ran(old(View()), T.Resolve(old(View()), claim, state, evidence), View(), result)
    {
      if claim.executionId >= |executions| || claim.proposalId >= |proposals| {
        return Raises(T.StateNotFound);
      }
      var execution, proposal := executions[claim.executionId], proposals[claim.proposalId];
      if execution.state == state || execution.state !in {Executing, Uncertain} {
        return Returned(());
      }
      if !ValidTransition(proposal.state, state) {
        return Raises(T.IllegalTransition);
      }
      executions := executions[claim.executionId :=
        execution.(state := state, result := evidence, leaseOwner := None, leasedAt := None)];
      proposals := proposals[claim.proposalId := proposal.(state := state, version := proposal.version + 1)];
      if state == Uncertain {
        AppendToOutbox(T.UncertainExecution(claim.executionId));
      }
      return Returned(());
    }
  }

  // ----- the execution service

  datatype ServiceError = StoreError(error: Error) | PermissionDenied

  function CommandFrom(environment: string, claim: T.ExecutionClaim): Command {
    Command(environment, claim.projectKey, claim.issue, claim.expected, claim.proposed)
  }

  datatype Solo = Solo(db: T.Database, result: Result<T.ExecutionResult, ServiceError>, calls: seq<Call>)

  /** One undisturbed `execute` as a function of the rows and of Jira's replies. */
  function SoloExecute(db: T.Database, proposalId: nat, correlation: string, now: int,
                       environment: string, allowedProjects: set<string>, replies: seq<Reply>): Solo {
    match PrepareTx(db, proposalId, correlation, now)
    case Abort(error) => Solo(db, Raises(StoreError(error)), [])
    case Commit(prepared, Existing(result)) => Solo(prepared, Returned(result), [])
    case Commit(prepared, Claimed(claim)) =>
      match T.MarkWriteAttempted(prepared, claim)
      case Abort(error) => Solo(prepared, Raises(StoreError(error)), [])
      case Commit(marked, _) =>
        var command := CommandFrom(environment, claim);
        if !Allowed(environment, allowedProjects, command) then Solo(marked, Raises(PermissionDenied), [])
        else
          var (receipt, calls) := Outcome(command, replies);
          match T.Finalize(marked, claim, Saga.ResultFrom(claim, receipt))
          case Abort(error) => Solo(marked, Raises(StoreError(error)), calls)
          case Commit(settled, result) => Solo(settled, Returned(result), calls)
  }

  class ReassignmentExecutionService {
    const store: DatabaseStore
    const mutator: MutationClient

    constructor (store: DatabaseStore, mutator: MutationClient)
      ensures this.store == store && this.mutator == mutator
    {
      this.store := store;
      this.mutator := mutator;
    }

    method Execute(proposalId: nat, correlation: string, now: int)
      returns (result: Result<T.ExecutionResult, ServiceError>)
      modifies store, mutator.transport
      ensures
        var solo := SoloExecute(old(store.View()), proposalId, correlation, now,
                                mutator.environment, mutator.allowedProjects, old(mutator.transport.replies));
        && result == solo.result
        && store.View() == solo.db
        && mutator.transport.calls == old(mutator.transport.calls) + solo.calls
    {
      var prepared := store.Prepare(proposalId, correlation, now);
      if prepared.Raises? {
        return Raises(StoreError(prepared.error));
      }
      if prepared.value.Existing? {
        return Returned(prepared.value.result);
      }
      var claim := prepared.value.claim;
      var marked := store.MarkWriteAttempted(claim);
      if marked.Raises? {
        return Raises(StoreError(marked.error));
      }
      var receipt := mutator.Execute(CommandFrom(mutator.environment, claim));
      if receipt.None? {
        return Raises(PermissionDenied);
      }
      var settled := store.Finalize(claim, Saga.ResultFrom(claim, receipt.value));
      if settled.Raises? {
        return Raises(StoreError(settled.error));
      }
      return Returned(settled.value);
    }
  }

  // ----- the reconciliation service

  datatype ReconciliationResult = ReconciliationResult(executionId: nat, verdict: Saga.Verdict)

  /** One claim classified by the reply to its read, and resolved. */
  function ReconcileTx(db: T.Database, claim: T.ReconciliationClaim, reply: Reply)
    : Tx<T.Database, ReconciliationResult, Error>
  {
    var verdict := Saga.Classify(claim, reply);
    match T.Resolve(db, claim, verdict.state, Saga.EvidenceOf(claim, verdict))
    case Commit(after, _) => Commit(after, ReconciliationResult(claim.executionId, verdict))
    case Abort(error) => Abort(error)
  }

  /** The first `k` claims of a worker, classified and resolved in order; a resolve that raises
      ends the work. */
  function Reconciled(db: T.Database, claims: seq<T.ReconciliationClaim>, replies: seq<Reply>, k: nat)
    : (reconciled: Result<(T.Database, seq<ReconciliationResult>), (T.Database, Error)>)
    requires k <= |claims|
    ensures reconciled.Returned? ==> |reconciled.value.1| == k
  {
    if k == 0 then Returned((db, []))
    else
      match Reconciled(db, claims, replies, k - 1)
      case Raises(e) => Raises(e)
      case Returned((before, results)) =>
        match ReconcileTx(before, claims[k - 1], ReplyAt(replies, k - 1))
        case Abort(error) => Raises((before, error))
        case Commit(after, result) => Returned((after, results + [result]))
  }

  /** How many of the first `k` claims the worker gets to: all of them, or as many as up to and
      including the first that raises. */
  function Reached(db: T.Database, claims: seq<T.ReconciliationClaim>, replies: seq<Reply>, k: nat): (reached: nat)
    requires k <= |claims|
    ensures reached <= k
    ensures Reconciled(db, claims, replies, k).Returned? ==> reached == k
    ensures Reconciled(db, claims, replies, k).Raises? ==>
      && reached > 0
      && Reconciled(db, claims, replies, reached).Raises?
      && Reconciled(db, claims, replies, reached - 1).Returned?
  {
    if k == 0 then 0
    else if Reconciled(db, claims, replies, k - 1).Raises? then Reached(db, claims, replies, k - 1)
    else k
  }

  /** All the claims were settled, or the work stopped at the first that raised and what was
      committed before it stays. */
  function Work(leased: T.Database, claims: seq<T.ReconciliationClaim>, replies: seq<Reply>)
    : (worked: (T.Database, Result<seq<ReconciliationResult>, Error>))
    ensures worked.1.Returned? ==> |worked.1.value| == |claims|
  {
    match Reconciled(leased, claims, replies, |claims|)
    case Returned((db, done)) => (db, Returned(done))
    case Raises((db, error)) => (db, Raises(error))
  }

  function Unread(replies: seq<Reply>, k: nat): seq<Reply> {
    if k <= |replies| then replies[k..] else []
  }

  lemma UnreadNext(replies: seq<Reply>, k: nat)
    ensures ReplyAt(Unread(replies, k), 0) == ReplyAt(replies, k)
    ensures Unread(replies, k + 1) == if Unread(replies, k) == [] then [] else Unread(replies, k)[1..]
  {
  }

  /** The calls grew by one issue read for each of the first `n` claims, in order, and by nothing
      else. */
  ghost predicate OneReadEach(before: seq<Call>, after: seq<Call>, claims: seq<T.ReconciliationClaim>, n: nat) {
    && n <= |claims| && |after| == |before| + n
    && after[..|before|] == before
    && forall k | 0 <= k < n :: after[|before| + k] == GetIssue(claims[k].issue)
  }

  class ReconciliationService {
    const store: DatabaseStore
    const reader: Transport

    constructor (store: DatabaseStore, reader: Transport)
      ensures this.store == store && this.reader == reader
    {
      this.store := store;
      this.reader := reader;
    }

    method Reconcile(claim: T.ReconciliationClaim) returns (result: Result<ReconciliationResult, Error>)
      modifies store, reader
      ensures Ran(old(store.View()), ReconcileTx(old(store.View()), claim, ReplyAt(old(reader.replies), 0)),
                  store.View(), result)
      ensures reader.calls == old(reader.calls) + [GetIssue(claim.issue)]
      ensures reader.replies == if old(reader.replies) == [] then [] else old(reader.replies)[1..]
    {
      var reply := reader.CallTool(GetIssue(claim.issue));
      var observed, errorCode := None, None;
      if reply.Raised? {
        errorCode := Some("jira_reconciliation_read_failed");
      } else {
        observed := reply.assignee;
      }
      var state;
      if observed == Some(claim.proposed) {
        state := ExecutedVerified;
      } else if observed == Some(claim.expected) && !claim.writeAttempted {
        state := ExecutionFailed;
      } else {
        state := Uncertain;
        if errorCode.None? {
          errorCode := Some("jira_reconciliation_ambiguous");
        }
      }
      var resolved := store.Resolve(claim, state, T.Payload(observed, errorCode, claim.writeAttempted));
      if resolved.Raises? {
        return Raises(resolved.error);
      }
      return Returned(ReconciliationResult(claim.executionId, Saga.Verdict(state, observed, errorCode)));
    }

    /** The loop over the claims of `run_once`. */
    method ReconcileAll(claims: seq<T.ReconciliationClaim>)
      returns (results: Result<seq<ReconciliationResult>, Error>)
      modifies store, reader
      ensures (store.View(), results) == Work(old(store.View()), claims, old(reader.replies))
      ensures OneReadEach(old(reader.calls), reader.calls, claims,
                          Reached(old(store.View()), claims, old(reader.replies), |claims|))
    {
      ghost var leased, replies := store.View(), reader.replies;
      var done: seq<ReconciliationResult> := [];
      for k := 0 to |claims|
        invariant Reconciled(leased, claims, replies, k) == Returned((store.View(), done))
        invariant |done| == k
        invariant reader.replies == Unread(replies, k)
        invariant OneReadEach(old(reader.calls), reader.calls, claims, k)
      {
        ghost var before, earlier := store.View(), reader.calls;
        UnreadNext(replies, k);
        var result := Reconcile(claims[k]);
        ReadsGrow(old(reader.calls), earlier, claims, k);
        if result.Raises? {
          WorkEnds(leased, claims, replies, k, before, done);
          return Raises(result.error);
        }
        ReconciledNext(leased, claims, replies, k, before, done);
        done := done + [result.value];
      }
      return Returned(done);
    }

    /** Reconciliation only reads Jira: one read for each claim it got to, in their order, which is
        every claim if it returns and those up to the first that raised otherwise. */
    method RunOnce(locked: set<nat>, limit: nat, worker: string, now: int)
      returns (results: Result<seq<ReconciliationResult>, Error>)
      modifies store, reader
      ensures
        var (leased, claims) := old(store.Leased(locked, limit, worker, now));
        && (store.View(), results) == Work(leased, claims, old(reader.replies))
        && OneReadEach(old(reader.calls), reader.calls, claims,
                       Reached(leased, claims, old(reader.replies), |claims|))
    {
      var claims := store.LeaseAbandoned(locked, limit, worker, now);
      results := ReconcileAll(claims);
    }

    /** A retry of one proposal that is UNCERTAIN; nothing is leased or read for any other. */
    method RunProposal(proposalId: nat, worker: string, now: int)
      returns (result: Result<Option<ReconciliationResult>, Error>)
      modifies store, reader
      ensures
        var db := old(store.View());
        var found := T.FindExecution(db.executions, proposalId);
        if found.Some? && db.executions[found.value].state == Uncertain && proposalId < |db.proposals| then
          var leased, claim := T.LeaseRow(db, found.value, worker, now), T.ClaimOf(db, found.value);
          && reader.calls == old(reader.calls) + [GetIssue(claim.issue)]
          && match ReconcileTx(leased, claim, ReplyAt(old(reader.replies), 0))
             case Commit(after, done) => store.View() == after && result == Returned(Some(done))
             case Abort(error) => store.View() == leased && result == Raises(error)
        else
          store.View() == db && reader.calls == old(reader.calls) && result == Returned(None)
    {
      var claim := store.LeaseProposal(proposalId, worker, now);
      if claim.None? {
        return Returned(None);
      }
      var done := Reconcile(claim.value);
      if done.Raises? {
        return Raises(done.error);
      }
      return Returned(Some(done.value));
    }
  }

  lemma ReadsGrow(before: seq<Call>, after: seq<Call>, claims: seq<T.ReconciliationClaim>, n: nat)
    requires OneReadEach(before, after, claims, n) && n < |claims|
    ensures OneReadEach(before, after + [GetIssue(claims[n].issue)], claims, n + 1)
  {
  }

  lemma ReconciledNext(db: T.Database, claims: seq<T.ReconciliationClaim>, replies: seq<Reply>, k: nat,
                       before: T.Database, results: seq<ReconciliationResult>)
    requires k < |claims| && Reconciled(db, claims, replies, k) == Returned((before, results))
    ensures Reconciled(db, claims, replies, k + 1) ==
      match ReconcileTx(before, claims[k], ReplyAt(replies, k))
      case Abort(error) => Raises((before, error))
      case Commit(after, result) => Returned((after, results + [result]))
  {
  }

  /** The claim at index `k` raises: nothing after it is reached, and what was committed stays. */
  lemma WorkEnds(db: T.Database, claims: seq<T.ReconciliationClaim>, replies: seq<Reply>, k: nat,
                 before: T.Database, results: seq<ReconciliationResult>)
    requires k < |claims| && Reconciled(db, claims, replies, k) == Returned((before, results))
    requires ReconcileTx(before, claims[k], ReplyAt(replies, k)).Abort?
    ensures Work(db, claims, replies) == (before, Raises(ReconcileTx(before, claims[k], ReplyAt(replies, k)).error))
    ensures Reached(db, claims, replies, |claims|) == k + 1
  {
    ReconciledNext(db, claims, replies, k, before, results);
    RaisesStays(db, claims, replies, k + 1);
  }

  lemma {:induction false} RaisesStays(db: T.Database, claims: seq<T.ReconciliationClaim>, replies: seq<Reply>, k: nat)
    requires k <= |claims| && Reconciled(db, claims, replies, k).Raises?
    ensures Reconciled(db, claims, replies, |claims|) == Reconciled(db, claims, replies, k)
    ensures Reached(db, claims, replies, |claims|) == Reached(db, claims, replies, k)
    decreases |claims| - k
  {
    if k == |claims| {
    } else {
      RaisesStays(db, claims, replies, k + 1);
    }
  }
}
