/** Invariants of the step system, first part: rows, claims and the edits sent. */
module SagaClaims {
  import opened Wrappers
  import opened Proposals
  import opened Transactions
  import opened Saga
  import opened SagaRows

  // ----- rows

  ghost predicate ExecutorsFit(s: System) {
    && (forall x | 0 <= x < |s.executors| && s.executors[x].Holds() :: ClaimFits(s.db, s.executors[x].claim))
    && (forall x, y | 0 <= x < y < |s.executors| && s.executors[x].Holds() && s.executors[y].Holds() ::
          s.executors[x].claim.executionId != s.executors[y].claim.executionId)
    && (forall x | 0 <= x < |s.executors| && s.executors[x].Finalizing? ::
          s.executors[x].result.state in AllowedTransitions(Executing))
  }

  ghost predicate QueueFits(db: Database, claims: seq<ReconciliationClaim>) {
    forall k | 0 <= k < |claims| :: SnapshotFits(db, claims[k])
  }

  ghost predicate ReconcilersFit(s: System) {
    forall w | 0 <= w < |s.reconcilers| :: QueueFits(s.db, s.reconcilers[w].claims)
  }

  ghost predicate Sound(s: System) {
    RowsAgree(s.db) && ExecutorsFit(s) && ReconcilersFit(s)
  }

  lemma ForwardReflexive(db: Database)
    ensures Forward(db, db)
  {
  }

  lemma FinalizeKeepsRows(s: System, x: nat)
    requires Sound(s) && At(s, x) && s.executors[x].Finalizing?
    ensures Finalize(s.db, s.executors[x].claim, s.executors[x].result).Commit?
    ensures RowsAgree(FinalizeStep(s, x).db) && Forward(s.db, FinalizeStep(s, x).db)
  {
    var claim, result := s.executors[x].claim, s.executors[x].result;
    var row := s.db.executions[claim.executionId];
    assert RowFits(s.db, row);
    if row.state == Executing {
      var settled := row.(state := result.state,
                          result := Payload(result.observed, result.errorCode, row.writeAttempted));
      SettleKeepsRows(s.db, claim.executionId, claim.proposalId, settled);
    }
  }

  lemma ResolveKeepsRows(s: System, w: nat)
    requires Sound(s) && Enabled(s, DoResolve(w))
    ensures
      var claim := s.reconcilers[w].claims[0];
      var verdict := Classify(claim, s.reconcilers[w].observed.value);
      Resolve(s.db, claim, verdict.state, EvidenceOf(claim, verdict)).Commit?
    ensures RowsAgree(ResolveStep(s, w).db) && Forward(s.db, ResolveStep(s, w).db)
  {
    var claim := s.reconcilers[w].claims[0];
    var verdict := Classify(claim, s.reconcilers[w].observed.value);
    assert QueueFits(s.db, s.reconcilers[w].claims);
    assert SnapshotFits(s.db, claim);
    var row := s.db.executions[claim.executionId];
    assert RowFits(s.db, row);
    if ResolveMoves(s.db, claim, verdict.state) {
      var settled := row.(state := verdict.state, result := EvidenceOf(claim, verdict),
                          leaseOwner := None, leasedAt := None);
      SettleKeepsRows(s.db, claim.executionId, claim.proposalId, settled);
    }
  }

  /** The actions that touch the database. */
  predicate Writes(action: Action) {
    || action.DoCreate? || action.DoDecide? || action.Insert? || action.Mark? || action.DoFinalize?
    || action.LeaseAbandoned? || action.LeaseProposal? || action.DoResolve?
  }

  lemma OthersKeepDatabase(s: System, action: Action)
    requires Enabled(s, action) && !Writes(action)
    ensures Step(s, action).db == s.db
  {
  }

  lemma LeaseProposalKeepsRows(s: System, w: nat, pid: nat, worker: string, now: int)
    requires RowsAgree(s.db) && w < |s.reconcilers|
    ensures RowsAgree(LeaseProposalStep(s, w, pid, worker, now).db)
    ensures Forward(s.db, LeaseProposalStep(s, w, pid, worker, now).db)
  {
    ForwardReflexive(s.db);
    var found := FindExecution(s.db.executions, pid);
    if found.Some? { LeasesKeepRows(s.db, [found.value], worker, now); }
  }

  /** A lease writes the lease columns of existing rows and nothing else. */
  lemma LeaseWritesLeases(s: System, action: Action)
    requires RowsAgree(s.db) && Enabled(s, action) && (action.LeaseAbandoned? || action.LeaseProposal?)
    ensures |Step(s, action).db.executions| == |s.db.executions|
    ensures Step(s, action).db == s.db.(executions := Step(s, action).db.executions)
    ensures forall e | 0 <= e < |s.db.executions| ::
      SameButLease(s.db.executions[e], Step(s, action).db.executions[e])
  {
    if action.LeaseAbandoned? {
      LeasesKeepRows(s.db, action.rows, action.worker, action.now);
    } else {
      var found := FindExecution(s.db.executions, action.pid);
      if found.Some? { LeasesKeepRows(s.db, [found.value], action.worker, action.now); }
    }
  }

  /** Every step keeps rows and claims in agreement and moves rows only forward. */
  lemma RowsKept(s: System, action: Action)
    requires Sound(s) && Enabled(s, action)
    ensures RowsAgree(Step(s, action).db) && Forward(s.db, Step(s, action).db)
  {
    ForwardReflexive(s.db);
    if !Writes(action) {
      OthersKeepDatabase(s, action);
    } else {
      WritersKeepRows(s, action);
    }
  }

  lemma WritersKeepRows(s: System, action: Action)
    requires Sound(s) && Enabled(s, action) && Writes(action) && Forward(s.db, s.db)
    ensures RowsAgree(Step(s, action).db) && Forward(s.db, Step(s, action).db)
  {
    match action
    case DoCreate(create) =>
      if Create(s.db, create).Commit? { CreateKeepsRows(s.db, create); }
      assert Step(s, action) == CreateStep(s, create);
    case DoDecide(decide, synchronised) =>
      if Decide(s.db, decide, synchronised).Commit? { DecideKeepsRows(s.db, decide, synchronised); }
      assert Step(s, action) == DecideStep(s, decide, synchronised);
    case Insert(x, correlation, now) =>
      var pid := s.executors[x].proposalId;
      if InsertExecution(s.db, pid, correlation, now).Commit? { InsertKeepsRows(s.db, pid, correlation, now); }
      assert Step(s, action) == InsertStep(s, x, correlation, now);
    case Mark(x) =>
      var claim := s.executors[x].claim;
      if MarkWriteAttempted(s.db, claim).Commit? { MarkKeepsRows(s.db, claim); }
      assert Step(s, action) == MarkStep(s, x);
    case DoFinalize(x) => FinalizeKeepsRows(s, x);
    case LeaseAbandoned(w, rows, worker, now, _, _) => LeasesKeepRows(s.db, rows, worker, now);
    case LeaseProposal(w, pid, worker, now) => LeaseProposalKeepsRows(s, w, pid, worker, now);
    case DoResolve(w) => ResolveKeepsRows(s, w);
  }

  // ----- claims

  /** The executors that may hold a claim after an action: the others kept theirs or gave it up. */
  predicate OnlyMoved(before: seq<Executor>, after: seq<Executor>, x: nat) {
    && |before| <= |after|
    && (forall y | 0 <= y < |after| && y != x && after[y].Holds() :: y < |before| && after[y] == before[y])
  }

  function Mover(s: System, action: Action): nat {
    match action
    case Insert(x, _, _) => x
    case Mark(x) => x
    case PreRead(x, _) => x
    case SendEdit(x) => x
    case EditReply(x, _) => x
    case ReadBack(x, _) => x
    case DoFinalize(x) => x
    case CheckExisting(x) => x
    case StopExecutor(x) => x
    case _ => |s.executors|
  }

  lemma OneExecutorMoves(s: System, action: Action)
    requires Enabled(s, action)
    ensures OnlyMoved(s.executors, Step(s, action).executors, Mover(s, action))
    ensures Mover(s, action) == |s.executors| ==>
              forall y | 0 <= y < |Step(s, action).executors| && Step(s, action).executors[y].Holds() ::
                y < |s.executors| && Step(s, action).executors[y] == s.executors[y]
  {
  }

  /** What the moved executor holds, read off the step alone. */
  lemma ExecutorMoves(s: System, action: Action, x: nat)
    requires Enabled(s, action) && x == Mover(s, action) && x < |s.executors|
    requires x < |Step(s, action).executors| && Step(s, action).executors[x].Holds()
    ensures
      var before, after := s.executors[x], Step(s, action).executors[x];
      && (before.Holds() ==> after.claim == before.claim)
      && (!before.Holds() ==>
            && action.Insert? && action.x == x && before.Inserting?
            && InsertExecution(s.db, before.proposalId, action.correlation, action.now).Commit?
            && after == Marking(InsertExecution(s.db, before.proposalId, action.correlation, action.now).value))
      && (after.Finalizing? ==> after.result.state in AllowedTransitions(Executing))
      && (before.Holds() && !action.SendEdit? ==>
            && (after.PastMark() ==> before.PastMark() || action.Mark?)
            && (after.MaySend() ==> before.MaySend())
            && (after.Finalizing? && after.result.state == Stale ==> before.MaySend()))
      && (action.SendEdit? ==> after == AwaitingEdit(before.claim))
  {
  }

  /** What a moved executor may hold: the claim it had, or a claim on a row just inserted. */
  lemma MovedClaim(s: System, action: Action, x: nat)
    requires Sound(s) && Enabled(s, action) && x == Mover(s, action) && x < |s.executors|
    requires x < |Step(s, action).executors| && Step(s, action).executors[x].Holds()
    ensures ClaimFits(Step(s, action).db, Step(s, action).executors[x].claim)
    ensures
      var claim := Step(s, action).executors[x].claim;
      if s.executors[x].Holds() then claim == s.executors[x].claim else claim.executionId == |s.db.executions|
  {
    RowsKept(s, action);
    ExecutorMoves(s, action, x);
    if s.executors[x].Holds() {
      var claim := s.executors[x].claim;
      FitsForward(s.db, Step(s, action).db, claim.executionId, claim.proposalId,
                  claim.issue, claim.expected, claim.proposed);
    } else {
      InsertKeepsRows(s.db, s.executors[x].proposalId, action.correlation, action.now);
      assert Step(s, action) == InsertStep(s, x, action.correlation, action.now);
    }
  }

  /** Claims across a step in which only executor `m` moves. */
  lemma ClaimsAcross(s: System, s': System, m: nat)
    requires Sound(s) && Forward(s.db, s'.db) && OnlyMoved(s.executors, s'.executors, m)
    requires m < |s'.executors| && s'.executors[m].Holds() ==>
      && ClaimFits(s'.db, s'.executors[m].claim)
      && (s'.executors[m].Finalizing? ==> s'.executors[m].result.state in AllowedTransitions(Executing))
      && (s'.executors[m].claim.executionId >= |s.db.executions|
          || (m < |s.executors| && s.executors[m].Holds() && s'.executors[m].claim == s.executors[m].claim))
    ensures ExecutorsFit(s')
  {
  }

  lemma ExecutorsKept(s: System, action: Action)
    requires Sound(s) && Enabled(s, action)
    ensures ExecutorsFit(Step(s, action))
  {
    var s', m := Step(s, action), Mover(s, action);
    RowsKept(s, action);
    OneExecutorMoves(s, action);
    if m < |s.executors| && s'.executors[m].Holds() {
      MovedClaim(s, action, m);
      ExecutorMoves(s, action, m);
    }
    ClaimsAcross(s, s', m);
  }

  lemma LeasedQueueFits(db: Database, after: Database, rows: seq<nat>)
    requires RowsAgree(db) && Forward(db, after)
    requires forall e | e in rows :: e < |db.executions| && db.executions[e].proposalId < |db.proposals|
    ensures QueueFits(after, ClaimsOf(db, rows))
  {
  }

  lemma ReconcilersKept(s: System, action: Action)
    requires Sound(s) && Enabled(s, action)
    ensures ReconcilersFit(Step(s, action))
  {
    var s' := Step(s, action);
    RowsKept(s, action);
    forall w | 0 <= w < |s'.reconcilers|
      ensures QueueFits(s'.db, s'.reconcilers[w].claims)
    {
      if w < |s.reconcilers| {
        if (action.LeaseAbandoned? || action.LeaseProposal?) && action.w == w {
          LeaserKept(s, action);
        } else {
          QueueForward(s.db, s'.db, s.reconcilers[w].claims);
          OtherQueues(s, action, w);
        }
      }
    }
  }

  lemma LeaserKept(s: System, action: Action)
    requires Sound(s) && Enabled(s, action) && (action.LeaseAbandoned? || action.LeaseProposal?)
    requires Forward(s.db, Step(s, action).db)
    ensures QueueFits(Step(s, action).db, Step(s, action).reconcilers[action.w].claims)
  {
    if action.LeaseAbandoned? {
      LeasedQueueFits(s.db, Step(s, action).db, action.rows);
    } else {
      var found := FindExecution(s.db.executions, action.pid);
      if found.Some? && action.pid < |s.db.proposals| {
        LeasedQueueFits(s.db, Step(s, action).db, [found.value]);
      }
    }
  }

  /** A step that leases nothing for a worker leaves it its claims, the rest of them, or none. */
  lemma OtherQueues(s: System, action: Action, w: nat)
    requires Enabled(s, action) && w < |s.reconcilers| && w < |Step(s, action).reconcilers|
    requires !((action.LeaseAbandoned? || action.LeaseProposal?) && action.w == w)
    ensures
      var before, after := s.reconcilers[w].claims, Step(s, action).reconcilers[w].claims;
      after == before || after == [] || (before != [] && after == before[1..])
  {
  }

  lemma QueueForward(before: Database, after: Database, claims: seq<ReconciliationClaim>)
    requires Forward(before, after) && QueueFits(before, claims)
    ensures QueueFits(after, claims)
  {
  }

  lemma SoundKept(s: System, action: Action)
    requires Sound(s) && Enabled(s, action)
    ensures Sound(Step(s, action)) && Forward(s.db, Step(s, action).db)
  {
    RowsKept(s, action);
    ExecutorsKept(s, action);
    ReconcilersKept(s, action);
  }
}
