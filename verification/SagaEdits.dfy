/** Invariants of the step system, second part: how many edits were sent. */
module SagaEdits {
  import opened Proposals
  import opened Transactions
  import opened Saga
  import opened SagaRows
  import opened SagaClaims

  // ----- the log

  function Count(log: seq<Event>, event: Event): nat {
    multiset(log)[event]
  }

  ghost function Note(s: System, action: Action): seq<Event>
    requires Enabled(s, action)
  {
    if |s.log| <= |Step(s, action).log| then Step(s, action).log[|s.log|..] else []
  }

  lemma LogGrows(s: System, action: Action)
    requires Enabled(s, action)
    ensures Step(s, action).log == s.log + Note(s, action) && |Note(s, action)| <= 1
  {
  }

  lemma CountGrows(log: seq<Event>, note: seq<Event>, event: Event)
    requires |note| <= 1
    ensures Count(log + note, event) == Count(log, event) + (if note == [event] then 1 else 0)
  {
  }

  // ----- edits sent

  /** How often `editJiraIssue` was sent for a proposal. */
  function Sends(s: System, proposalId: nat): nat {
    Count(s.log, Sent(proposalId))
  }

  ghost predicate HasExecution(db: Database, proposalId: nat) {
    exists e :: 0 <= e < |db.executions| && db.executions[e].proposalId == proposalId
  }

  predicate RowSends(s: System, row: Execution) {
    && Sends(s, row.proposalId) <= 1
    && (!row.writeAttempted || row.state == Stale ==> Sends(s, row.proposalId) == 0)
  }

  predicate ExecutorSends(s: System, executor: Executor)
    requires executor.Holds() ==> ClaimFits(s.db, executor.claim)
  {
    executor.Holds() ==>
      && s.db.executions[executor.claim.executionId].state != Stale
      && (executor.PastMark() ==> s.db.executions[executor.claim.executionId].writeAttempted)
      && (executor.MaySend() ==> Sends(s, executor.claim.proposalId) == 0)
      && (executor.Finalizing? && executor.result.state == Stale ==> Sends(s, executor.claim.proposalId) == 0)
  }

  ghost predicate EditsBounded(s: System)
    requires ExecutorsFit(s)
  {
    && (forall p: nat | Sends(s, p) > 0 :: HasExecution(s.db, p))
    && (forall e | 0 <= e < |s.db.executions| :: RowSends(s, s.db.executions[e]))
    && (forall x | 0 <= x < |s.executors| :: ExecutorSends(s, s.executors[x]))
  }

  /** What a step without a send must respect for the bounds to carry over. */
  ghost predicate QuietStep(s: System, s': System, m: nat) {
    && Forward(s.db, s'.db)
    && (forall p: nat :: Sends(s', p) == Sends(s, p))
    && (forall e | 0 <= e < |s.db.executions| ::
          && (s'.db.executions[e].state == Stale ==> s.db.executions[e].state == Stale)
          && (!s'.db.executions[e].writeAttempted ==> !s.db.executions[e].writeAttempted))
    && OnlyMoved(s.executors, s'.executors, m)
  }

  lemma ExecutionsStay(before: Database, after: Database, p: nat)
    requires Forward(before, after) && HasExecution(before, p)
    ensures HasExecution(after, p)
  {
  }

  lemma QuietKeeps(s: System, s': System, m: nat)
    requires Sound(s) && Sound(s') && EditsBounded(s) && QuietStep(s, s', m)
    requires m < |s'.executors| ==> ExecutorSends(s', s'.executors[m])
    requires forall e | |s.db.executions| <= e < |s'.db.executions| ::
      !HasExecution(s.db, s'.db.executions[e].proposalId)
    ensures EditsBounded(s')
  {
  }

  lemma SendsGrow(s: System, action: Action)
    requires Enabled(s, action)
    ensures forall p: nat :: Sends(Step(s, action), p) == Sends(s, p) + (if Note(s, action) == [Sent(p)] then 1 else 0)
  {
    LogGrows(s, action);
    forall p: nat
      ensures Sends(Step(s, action), p) == Sends(s, p) + (if Note(s, action) == [Sent(p)] then 1 else 0)
    {
      CountGrows(s.log, Note(s, action), Sent(p));
    }
  }

  lemma OnlySendsSend(s: System, action: Action)
    requires Enabled(s, action) && !action.SendEdit?
    ensures forall p: nat :: Sends(Step(s, action), p) == Sends(s, p)
  {
    SendsGrow(s, action);
    NoteIsNoSend(s, action);
  }

  lemma NoteIsNoSend(s: System, action: Action)
    requires Enabled(s, action) && !action.SendEdit?
    ensures forall p: nat :: Note(s, action) != [Sent(p)]
  {
  }

  /** Which rows a step can turn STALE, and that none of them unmarks a row. */
  lemma OnlyFinalizeMakesStale(s: System, action: Action)
    requires Sound(s) && Enabled(s, action) && !action.DoFinalize?
    ensures forall e | 0 <= e < |s.db.executions| ::
      Step(s, action).db.executions[e].state == Stale ==> s.db.executions[e].state == Stale
  {
    RowsKept(s, action);
    if !Writes(action) {
      OthersKeepDatabase(s, action);
    } else if action.LeaseAbandoned? || action.LeaseProposal? {
      LeaseWritesLeases(s, action);
    }
  }

  /** A first execution's proposal has no edit yet. */
  lemma FirstHasNoSend(s: System, pid: nat)
    requires ExecutorsFit(s) && EditsBounded(s) && FindExecution(s.db.executions, pid).None?
    ensures Sends(s, pid) == 0
  {
  }

  lemma MarkMarks(s: System, x: nat)
    requires Enabled(s, Mark(x)) && MarkStep(s, x).executors[x].Holds()
    ensures
      var e := s.executors[x].claim.executionId;
      e < |MarkStep(s, x).db.executions| && MarkStep(s, x).db.executions[e].writeAttempted
  {
  }

  /** An executor that held its claim before the step meets its bound again after it. */
  lemma HolderSends(s: System, action: Action, x: nat)
    requires Sound(s) && EditsBounded(s) && Enabled(s, action) && !action.SendEdit?
    requires x == Mover(s, action) && x < |s.executors| && s.executors[x].Holds()
    requires x < |Step(s, action).executors| && Step(s, action).executors[x].Holds()
    requires ClaimFits(Step(s, action).db, Step(s, action).executors[x].claim)
    requires Forward(s.db, Step(s, action).db)
    ensures ExecutorSends(Step(s, action), Step(s, action).executors[x])
  {
    OnlySendsSend(s, action);
    ExecutorMoves(s, action, x);
    assert ExecutorSends(s, s.executors[x]);
    var e := s.executors[x].claim.executionId;
    assert ExecutionForward(s.db.executions[e], Step(s, action).db.executions[e]);
    if action.DoFinalize? {
      assert false;
    } else {
      OnlyFinalizeMakesStale(s, action);
      if action.Mark? { MarkMarks(s, x); }
    }
  }

  /** The moved executor meets its bound again, in every step but the send. */
  lemma MovedSends(s: System, action: Action, x: nat)
    requires Sound(s) && EditsBounded(s) && Enabled(s, action) && !action.SendEdit?
    requires x == Mover(s, action) && x < |s.executors| && x < |Step(s, action).executors|
    ensures Step(s, action).executors[x].Holds() ==> ClaimFits(Step(s, action).db, Step(s, action).executors[x].claim)
    ensures ExecutorSends(Step(s, action), Step(s, action).executors[x])
  {
    var s' := Step(s, action);
    if s'.executors[x].Holds() {
      RowsKept(s, action);
      MovedClaim(s, action, x);
      if s.executors[x].Holds() {
        HolderSends(s, action, x);
      } else {
        ExecutorMoves(s, action, x);
        OnlySendsSend(s, action);
        FirstHasNoSend(s, s.executors[x].proposalId);
        NewRowExecutes(s, x, action.correlation, action.now);
      }
    }
  }

  lemma NewRowExecutes(s: System, x: nat, correlation: string, now: int)
    requires Enabled(s, Insert(x, correlation, now))
    requires InsertExecution(s.db, s.executors[x].proposalId, correlation, now).Commit?
    ensures
      var claim := InsertExecution(s.db, s.executors[x].proposalId, correlation, now).value;
      && claim.proposalId == s.executors[x].proposalId
      && claim.executionId < |InsertStep(s, x, correlation, now).db.executions|
      && InsertStep(s, x, correlation, now).db.executions[claim.executionId].state == Executing
  {
  }

  lemma SendCounts(s: System, x: nat)
    requires Sound(s) && EditsBounded(s) && Enabled(s, SendEdit(x))
    ensures
      var claim := s.executors[x].claim;
      && ClaimFits(s.db, claim)
      && Sends(SendStep(s, x), claim.proposalId) == 1
      && s.db.executions[claim.executionId].writeAttempted
      && s.db.executions[claim.executionId].state != Stale
      && forall p: nat | p != claim.proposalId :: Sends(SendStep(s, x), p) == Sends(s, p)
  {
  }

  lemma SendKeepsRows(s: System, x: nat)
    requires Sound(s) && EditsBounded(s) && Enabled(s, SendEdit(x))
    ensures forall p: nat | Sends(SendStep(s, x), p) > 0 :: HasExecution(s.db, p)
    ensures forall e | 0 <= e < |s.db.executions| :: RowSends(SendStep(s, x), s.db.executions[e])
  {
    var s' := SendStep(s, x);
    SendCounts(s, x);
    var claim := s.executors[x].claim;
    forall p: nat | Sends(s', p) > 0
      ensures HasExecution(s.db, p)
    {
      if p == claim.proposalId { assert s.db.executions[claim.executionId].proposalId == p; }
    }
    forall e | 0 <= e < |s.db.executions|
      ensures RowSends(s', s.db.executions[e])
    {
      assert RowSends(s, s.db.executions[e]);
    }
  }

  lemma SendKept(s: System, x: nat)
    requires Sound(s) && EditsBounded(s) && Enabled(s, SendEdit(x))
    requires ExecutorsFit(SendStep(s, x))
    ensures EditsBounded(SendStep(s, x))
  {
    var s' := SendStep(s, x);
    SendKeepsRows(s, x);
    SendCounts(s, x);
    forall y | 0 <= y < |s'.executors|
      ensures ExecutorSends(s', s'.executors[y])
    {
      if y != x && s.executors[y].Holds() {
        assert ExecutorSends(s, s.executors[y]);
        assert s.executors[y].claim.proposalId != s.executors[x].claim.proposalId;
      }
    }
  }

  /** The rows after a `finalize`: at most the holder's own row turns STALE, and then no edit
      was sent. */
  lemma FinalizeKeepsSends(s: System, x: nat)
    requires Sound(s) && EditsBounded(s) && Enabled(s, DoFinalize(x))
    ensures Forward(s.db, FinalizeStep(s, x).db)
    ensures |FinalizeStep(s, x).db.executions| == |s.db.executions|
    ensures forall e | 0 <= e < |s.db.executions| :: RowSends(s, FinalizeStep(s, x).db.executions[e])
    ensures forall e | 0 <= e < |s.db.executions| && e != s.executors[x].claim.executionId ::
      FinalizeStep(s, x).db.executions[e] == s.db.executions[e]
  {
    FinalizeKeepsRows(s, x);
    assert ExecutorSends(s, s.executors[x]);
    assert forall e | 0 <= e < |s.db.executions| :: RowSends(s, s.db.executions[e]);
  }

  lemma FinalizeKept(s: System, x: nat)
    requires Sound(s) && EditsBounded(s) && Enabled(s, DoFinalize(x))
    requires ExecutorsFit(FinalizeStep(s, x))
    requires forall p: nat :: Sends(FinalizeStep(s, x), p) == Sends(s, p)
    ensures EditsBounded(FinalizeStep(s, x))
  {
    var s' := FinalizeStep(s, x);
    FinalizeKeepsSends(s, x);
    forall p: nat | Sends(s', p) > 0
      ensures HasExecution(s'.db, p)
    {
      ExecutionsStay(s.db, s'.db, p);
    }
    forall e | 0 <= e < |s'.db.executions|
      ensures RowSends(s', s'.db.executions[e])
    {
      assert RowSends(s, s'.db.executions[e]);
    }
    FinalizeKeepsExecutors(s, x);
  }

  lemma FinalizeKeepsExecutors(s: System, x: nat)
    requires Sound(s) && EditsBounded(s) && Enabled(s, DoFinalize(x))
    requires forall p: nat :: Sends(FinalizeStep(s, x), p) == Sends(s, p)
    ensures forall y | 0 <= y < |FinalizeStep(s, x).executors| ::
      ExecutorSends(FinalizeStep(s, x), FinalizeStep(s, x).executors[y])
  {
    var s' := FinalizeStep(s, x);
    FinalizeKeepsSends(s, x);
    forall y | 0 <= y < |s'.executors|
      ensures ExecutorSends(s', s'.executors[y])
    {
      if y != x { assert ExecutorSends(s, s.executors[y]); }
    }
  }

  lemma NewRowsAreFirst(s: System, action: Action)
    requires Sound(s) && Enabled(s, action)
    ensures forall e | |s.db.executions| <= e < |Step(s, action).db.executions| ::
      !HasExecution(s.db, Step(s, action).db.executions[e].proposalId)
  {
    if action.LeaseAbandoned? || action.LeaseProposal? {
      LeaseWritesLeases(s, action);
    }
  }

  lemma EditsKept(s: System, action: Action)
    requires Sound(s) && EditsBounded(s) && Enabled(s, action)
    ensures ExecutorsFit(Step(s, action)) && EditsBounded(Step(s, action))
  {
    SoundKept(s, action);
    if action.SendEdit? {
      SendKept(s, action.x);
    } else if action.DoFinalize? {
      OnlySendsSend(s, action);
      FinalizeKept(s, action.x);
    } else {
      var s' := Step(s, action);
      OnlySendsSend(s, action);
      OnlyFinalizeMakesStale(s, action);
      OneExecutorMoves(s, action);
      NewRowsAreFirst(s, action);
      forall e | 0 <= e < |s.db.executions|
        ensures !s'.db.executions[e].writeAttempted ==> !s.db.executions[e].writeAttempted
      {
        assert ExecutionForward(s.db.executions[e], s'.db.executions[e]);
      }
      var m := Mover(s, action);
      if m < |s.executors| { MovedSends(s, action, m); } else if m < |s'.executors| { assert !s'.executors[m].Holds(); }
      QuietKeeps(s, s', m);
    }
  }
}
