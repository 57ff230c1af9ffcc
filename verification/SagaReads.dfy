/** Invariants of the step system, fourth part: every assignee recorded as observed was read since
    the execution began, and a verified execution observed the proposed one. */
module SagaReads {
  import opened Wrappers
  import opened Proposals
  import opened Saga
  import opened SagaRows
  import opened SagaClaims
  import opened SagaEdits

  // ----- state changes of a row

  /** The step that takes execution `e` to `state`. */
  predicate Moves(s: System, action: Action, e: nat, state: ProposalState)
    requires Enabled(s, action) && e < |s.db.executions|
  {
    if action.DoFinalize? then
      && s.executors[action.x].claim.executionId == e
      && s.executors[action.x].result.state == state
      && s.db.executions[e].state == Executing
    else
      && action.DoResolve?
      && s.reconcilers[action.w].claims[0].executionId == e
      && Classify(s.reconcilers[action.w].claims[0], s.reconcilers[action.w].observed.value).state == state
      && ResolveMoves(s.db, s.reconcilers[action.w].claims[0], state)
  }

  lemma WritesWithoutMoving(s: System, action: Action)
    requires Sound(s) && Enabled(s, action) && !action.DoFinalize? && !action.DoResolve?
    ensures |s.db.executions| <= |Step(s, action).db.executions|
    ensures forall e | 0 <= e < |s.db.executions| ::
      Step(s, action).db.executions[e].state == s.db.executions[e].state
    ensures Step(s, action).db.outbox == s.db.outbox
    ensures forall ev | ev in Note(s, action) :: !ev.Became?
  {
    if action.LeaseAbandoned? || action.LeaseProposal? {
      LeaseWritesLeases(s, action);
    }
  }

  /** The log is faithful: a row changes state exactly in the step that notes it. */
  lemma RowMoves(s: System, action: Action)
    requires Sound(s) && Enabled(s, action)
    ensures |s.db.executions| <= |Step(s, action).db.executions|
    ensures forall e | 0 <= e < |s.db.executions| ::
      Step(s, action).db.executions[e].state != s.db.executions[e].state ==>
        && Moves(s, action, e, Step(s, action).db.executions[e].state)
        && Note(s, action) == [Became(e, Step(s, action).db.executions[e].state)]
    ensures forall ev | ev in Note(s, action) && ev.Became? ::
      && ev.executionId < |s.db.executions|
      && Step(s, action).db.executions[ev.executionId].state == ev.state != s.db.executions[ev.executionId].state
  {
    if action.DoFinalize? {
      FinalizeKeepsRows(s, action.x);
      var claim := s.executors[action.x].claim;
      assert RowFits(s.db, s.db.executions[claim.executionId]);
    } else if action.DoResolve? {
      ResolveKeepsRows(s, action.w);
      assert QueueFits(s.db, s.reconcilers[action.w].claims);
      assert SnapshotFits(s.db, s.reconcilers[action.w].claims[0]);
      assert RowFits(s.db, s.db.executions[s.reconcilers[action.w].claims[0].executionId]);
    } else {
      WritesWithoutMoving(s, action);
    }
  }

  // ----- reads

  ghost predicate HasBegun(log: seq<Event>, e: nat) {
    exists i :: 0 <= i < |log| && log[i].Began? && log[i].executionId == e
  }

  /** Some read made for execution `e` after it began returned `assignee`. */
  ghost predicate ReadAfter(log: seq<Event>, e: nat, assignee: Option<string>) {
    exists i, j :: 0 <= i < j < |log| && log[i].Began? && log[i].executionId == e && log[j] == Read(e, assignee)
  }

  lemma ReadAfterLonger(log: seq<Event>, note: seq<Event>, e: nat, assignee: Option<string>)
    requires ReadAfter(log, e, assignee)
    ensures ReadAfter(log + note, e, assignee)
  {
    var i, j :| 0 <= i < j < |log| && log[i].Began? && log[i].executionId == e && log[j] == Read(e, assignee);
    assert (log + note)[i] == log[i] && (log + note)[j] == log[j];
  }

  lemma ReadNow(log: seq<Event>, e: nat, assignee: Option<string>)
    requires HasBegun(log, e)
    ensures ReadAfter(log + [Read(e, assignee)], e, assignee)
  {
    var i :| 0 <= i < |log| && log[i].Began? && log[i].executionId == e;
    var longer := log + [Read(e, assignee)];
    assert longer[i] == log[i] && longer[|log|] == Read(e, assignee);
  }

  /** An assignee recorded as observed was read; nothing recorded claims nothing. */
  ghost predicate WasRead(log: seq<Event>, e: nat, observed: Option<string>) {
    observed.Some? ==> ReadAfter(log, e, observed)
  }

  /** The observed assignee stored with an execution was read for it since it began, and an
      execution stored as verified has the proposed one stored. */
  ghost predicate RowRead(s: System, e: nat)
    requires e < |s.db.executions| && RowFits(s.db, s.db.executions[e])
  {
    var row := s.db.executions[e];
    && HasBegun(s.log, e)
    && WasRead(s.log, e, row.result.observed)
    && (row.state == ExecutedVerified ==> row.result.observed == Some(s.db.proposals[row.proposalId].proposed))
  }

  ghost predicate ExecutorRead(log: seq<Event>, executor: Executor) {
    executor.Finalizing? ==>
      && WasRead(log, executor.claim.executionId, executor.result.observed)
      && (executor.result.state == ExecutedVerified ==> executor.result.observed == Some(executor.claim.proposed))
  }

  ghost predicate ReconcilerRead(log: seq<Event>, reconciler: Reconciler) {
    reconciler.claims != [] && reconciler.observed.Some? && reconciler.observed.value.Response? ==>
      ReadAfter(log, reconciler.claims[0].executionId, reconciler.observed.value.assignee)
  }

  ghost predicate ReadsSound(s: System)
    requires RowsAgree(s.db)
  {
    && (forall e | 0 <= e < |s.db.executions| :: RowRead(s, e))
    && (forall x | 0 <= x < |s.executors| :: ExecutorRead(s.log, s.executors[x]))
    && (forall w | 0 <= w < |s.reconcilers| :: ReconcilerRead(s.log, s.reconcilers[w]))
  }

  lemma HasBegunLonger(log: seq<Event>, note: seq<Event>, e: nat)
    requires HasBegun(log, e)
    ensures HasBegun(log + note, e)
  {
    var i :| 0 <= i < |log| && log[i].Began? && log[i].executionId == e;
    assert (log + note)[i] == log[i];
  }

  /** Where the observed assignee of a row comes from. */
  lemma RowObserves(s: System, action: Action, e: nat)
    requires Sound(s) && Enabled(s, action) && e < |s.db.executions|
    ensures e < |Step(s, action).db.executions|
    ensures
      var before, after := s.db.executions[e].result.observed, Step(s, action).db.executions[e].result.observed;
      || after == before
      || after == None
      || (action.DoFinalize?
          && s.executors[action.x].claim.executionId == e && after == s.executors[action.x].result.observed)
      || (action.DoResolve?
          && s.reconcilers[action.w].claims[0].executionId == e
          && after == Classify(s.reconcilers[action.w].claims[0], s.reconcilers[action.w].observed.value).observed)
  {
    if action.LeaseAbandoned? || action.LeaseProposal? {
      LeaseWritesLeases(s, action);
    }
  }

  lemma RowVerifies(s: System, action: Action, e: nat)
    requires Sound(s) && Enabled(s, action) && e < |s.db.executions| && s.db.executions[e].state != ExecutedVerified
    requires e < |Step(s, action).db.executions| && Step(s, action).db.executions[e].state == ExecutedVerified
    ensures action.DoFinalize? ==>
      && s.executors[action.x].claim.executionId == e && s.executors[action.x].result.state == ExecutedVerified
      && Step(s, action).db.executions[e].result.observed == s.executors[action.x].result.observed
    ensures !action.DoFinalize? ==>
      && action.DoResolve? && s.reconcilers[action.w].claims[0].executionId == e
      && Step(s, action).db.executions[e].result.observed == Some(s.reconcilers[action.w].claims[0].proposed)
  {
    RowMoves(s, action);
  }

  lemma VerdictWasRead(s: System, w: nat)
    requires Sound(s) && ReadsSound(s) && Enabled(s, DoResolve(w))
    ensures WasRead(s.log, s.reconcilers[w].claims[0].executionId,
                    Classify(s.reconcilers[w].claims[0], s.reconcilers[w].observed.value).observed)
  {
    assert ReconcilerRead(s.log, s.reconcilers[w]);
  }

  lemma ObservedStaysRead(s: System, action: Action, e: nat)
    requires Sound(s) && ReadsSound(s) && Enabled(s, action) && e < |s.db.executions|
    ensures e < |Step(s, action).db.executions|
    ensures WasRead(Step(s, action).log, e, Step(s, action).db.executions[e].result.observed)
  {
    var observed := Step(s, action).db.executions[e].result.observed;
    LogGrows(s, action);
    RowObserves(s, action, e);
    if observed.Some? {
      assert RowRead(s, e);
      if action.DoFinalize? { assert ExecutorRead(s.log, s.executors[action.x]); }
      if action.DoResolve? { VerdictWasRead(s, action.w); }
      ReadAfterLonger(s.log, Note(s, action), e, observed);
    }
  }

  lemma VerifiedStaysObserved(s: System, action: Action, e: nat)
    requires Sound(s) && ReadsSound(s) && Enabled(s, action) && e < |s.db.executions|
    requires e < |Step(s, action).db.executions| && Step(s, action).db.executions[e].state == ExecutedVerified
    requires Forward(s.db, Step(s, action).db)
    ensures Step(s, action).db.executions[e].result.observed
         == Some(s.db.proposals[s.db.executions[e].proposalId].proposed)
  {
    assert RowRead(s, e) && RowFits(s.db, s.db.executions[e]);
    assert ExecutionForward(s.db.executions[e], Step(s, action).db.executions[e]);
    if s.db.executions[e].state != ExecutedVerified {
      RowVerifies(s, action, e);
      if action.DoFinalize? {
        assert ExecutorRead(s.log, s.executors[action.x]) && ClaimFits(s.db, s.executors[action.x].claim);
      } else {
        assert QueueFits(s.db, s.reconcilers[action.w].claims);
        assert SnapshotFits(s.db, s.reconcilers[action.w].claims[0]);
      }
    }
  }

  lemma RowsRead(s: System, action: Action)
    requires Sound(s) && ReadsSound(s) && Enabled(s, action)
    ensures RowsAgree(Step(s, action).db)
    ensures forall e | 0 <= e < |s.db.executions| && e < |Step(s, action).db.executions| :: RowRead(Step(s, action), e)
  {
    var s' := Step(s, action);
    RowsKept(s, action);
    LogGrows(s, action);
    forall e | 0 <= e < |s.db.executions|
      ensures RowRead(s', e)
    {
      var p := s.db.executions[e].proposalId;
      assert RowRead(s, e) && RowFits(s.db, s.db.executions[e]);
      assert ExecutionForward(s.db.executions[e], s'.db.executions[e]);
      assert ProposalForward(s.db.proposals[p], s'.db.proposals[p]);
      HasBegunLonger(s.log, Note(s, action), e);
      ObservedStaysRead(s, action, e);
      if s'.db.executions[e].state == ExecutedVerified { VerifiedStaysObserved(s, action, e); }
    }
  }

  lemma NewRowRead(s: System, action: Action)
    requires Sound(s) && Enabled(s, action)
    ensures RowsAgree(Step(s, action).db)
    ensures forall e | |s.db.executions| <= e < |Step(s, action).db.executions| :: RowRead(Step(s, action), e)
  {
    RowsKept(s, action);
    if action.LeaseAbandoned? || action.LeaseProposal? {
      LeaseWritesLeases(s, action);
    } else if action.Insert? {
      var s' := Step(s, action);
      var e := |s.db.executions|;
      if |s'.db.executions| > e {
        assert s'.log[|s.log|].Began? && s'.log[|s.log|].executionId == e;
      }
    }
  }

  /** A result comes from the pre-read, the edit or the read-back of its own executor, and carries
      what that step read. */
  lemma ResultsAreRead(s: System, action: Action, x: nat)
    requires Sound(s) && Enabled(s, action)
    requires x == Mover(s, action) && x < |s.executors| && x < |Step(s, action).executors|
    requires Step(s, action).executors[x].Finalizing?
    ensures s.executors[x].Holds() && Step(s, action).executors[x].claim == s.executors[x].claim
    ensures
      var executor := Step(s, action).executors[x];
      && (executor.result.observed.Some? ==>
            Note(s, action) == [Read(executor.claim.executionId, executor.result.observed)])
      && (executor.result.state == ExecutedVerified ==> executor.result.observed == Some(executor.claim.proposed))
  {
    assert action.PreRead? || action.EditReply? || action.ReadBack?;
  }

  lemma ExecutorsRead(s: System, action: Action)
    requires Sound(s) && ReadsSound(s) && Enabled(s, action)
    ensures forall x | 0 <= x < |Step(s, action).executors| ::
      ExecutorRead(Step(s, action).log, Step(s, action).executors[x])
  {
    var s' := Step(s, action);
    LogGrows(s, action);
    OneExecutorMoves(s, action);
    forall x | 0 <= x < |s'.executors| && s'.executors[x].Finalizing?
      ensures ExecutorRead(s'.log, s'.executors[x])
    {
      var claim, observed := s'.executors[x].claim, s'.executors[x].result.observed;
      if x != Mover(s, action) {
        assert ExecutorRead(s.log, s.executors[x]);
        if observed.Some? { ReadAfterLonger(s.log, Note(s, action), claim.executionId, observed); }
      } else {
        ResultsAreRead(s, action, x);
        assert ClaimFits(s.db, claim) && RowRead(s, claim.executionId);
        if observed.Some? { ReadNow(s.log, claim.executionId, observed); }
      }
    }
  }

  lemma ReconcilersRead(s: System, action: Action)
    requires Sound(s) && ReadsSound(s) && Enabled(s, action)
    ensures forall w | 0 <= w < |Step(s, action).reconcilers| ::
      ReconcilerRead(Step(s, action).log, Step(s, action).reconcilers[w])
  {
    var s' := Step(s, action);
    LogGrows(s, action);
    forall w | 0 <= w < |s'.reconcilers|
      ensures ReconcilerRead(s'.log, s'.reconcilers[w])
    {
      var reconciler := s'.reconcilers[w];
      if reconciler.claims != [] && reconciler.observed.Some? && reconciler.observed.value.Response? {
        var e, assignee := reconciler.claims[0].executionId, reconciler.observed.value.assignee;
        if action.Observe? && action.w == w {
          assert QueueFits(s.db, s.reconcilers[w].claims);
          assert SnapshotFits(s.db, s.reconcilers[w].claims[0]);
          assert RowRead(s, e);
          ReadNow(s.log, e, assignee);
        } else {
          assert reconciler == s.reconcilers[w];
          assert ReconcilerRead(s.log, s.reconcilers[w]);
          ReadAfterLonger(s.log, Note(s, action), e, assignee);
        }
      }
    }
  }

  lemma ReadsKept(s: System, action: Action)
    requires Sound(s) && ReadsSound(s) && Enabled(s, action)
    ensures RowsAgree(Step(s, action).db) && ReadsSound(Step(s, action))
  {
    RowsRead(s, action);
    NewRowRead(s, action);
    RowMoves(s, action);
    ExecutorsRead(s, action);
    ReconcilersRead(s, action);
  }
}
