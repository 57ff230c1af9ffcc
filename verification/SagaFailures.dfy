/** What a stored EXECUTION_FAILED tells a reader of the rows about edits. */
module SagaFailures {
  import opened Wrappers
  import opened Proposals
  import opened Transactions
  import opened JiraMutation
  import opened Saga
  import opened SagaRows
  import opened SagaClaims
  import opened SagaEdits
  import opened SagaReads
  import opened SagaTheorems
  import opened SagaWitnesses

  /** Once the edit is out it was sent; a failure before it has not sent it, a rejected edit has. */
  predicate ExecutorTells(s: System, executor: Executor) {
    && (executor.AwaitingEdit? || executor.ReadingBack? ==> Sends(s, executor.claim.proposalId) > 0)
    && (executor.Finalizing? && executor.result.state == ExecutionFailed ==>
          if executor.result.errorCode == Some(PRECONDITION_READ_FAILED)
          then Sends(s, executor.claim.proposalId) == 0
          else executor.result.errorCode == Some(WRITE_REJECTED) && Sends(s, executor.claim.proposalId) > 0)
  }

  ghost predicate NoHolder(s: System, e: nat) {
    forall x | 0 <= x < |s.executors| && s.executors[x].Holds() :: s.executors[x].claim.executionId != e
  }

  ghost predicate RowTells(s: System, e: nat)
    requires e < |s.db.executions|
  {
    var row := s.db.executions[e];
    row.state == ExecutionFailed && row.result.errorCode.Some? ==>
      if row.result.errorCode == Some(PRECONDITION_READ_FAILED)
      then Sends(s, row.proposalId) == 0 && NoHolder(s, e)
      else row.result.errorCode == Some(WRITE_REJECTED) && Sends(s, row.proposalId) > 0
  }

  ghost predicate FailuresTell(s: System) {
    && (forall x | 0 <= x < |s.executors| :: ExecutorTells(s, s.executors[x]))
    && (forall e | 0 <= e < |s.db.executions| :: RowTells(s, e))
  }

  lemma CodesDiffer()
    ensures PRECONDITION_READ_FAILED != WRITE_REJECTED
  {
    assert PRECONDITION_READ_FAILED[5] != WRITE_REJECTED[5];
  }

  // ----- one step

  /** Only the executor that sends changes the count of its own proposal. */
  lemma OthersCountStays(s: System, action: Action, p: nat)
    requires Sound(s) && Enabled(s, action)
    requires action.SendEdit? ==> s.executors[action.x].claim.proposalId != p
    ensures Sends(Step(s, action), p) == Sends(s, p)
  {
    if action.SendEdit? {
      SendsGrow(s, action);
      assert Note(s, action) == [Sent(s.executors[action.x].claim.proposalId)];
    } else {
      OnlySendsSend(s, action);
    }
  }

  lemma CountsRise(s: System, action: Action, p: nat)
    requires Enabled(s, action)
    ensures Sends(s, p) <= Sends(Step(s, action), p)
  {
    SendsGrow(s, action);
  }

  lemma DifferentExecutionsDifferentProposals(s: System, x: nat, y: nat)
    requires Sound(s) && x < |s.executors| && y < |s.executors| && x != y
    requires s.executors[x].Holds() && s.executors[y].Holds()
    ensures s.executors[x].claim.executionId != s.executors[y].claim.executionId
    ensures s.executors[x].claim.proposalId != s.executors[y].claim.proposalId
  {
    assert ClaimFits(s.db, s.executors[x].claim) && ClaimFits(s.db, s.executors[y].claim);
  }

  lemma OtherExecutorTells(s: System, action: Action, x: nat)
    requires Sound(s) && FailuresTell(s) && Enabled(s, action)
    requires x != Mover(s, action) && x < |s.executors| && x < |Step(s, action).executors|
    requires Step(s, action).executors[x] == s.executors[x]
    ensures ExecutorTells(Step(s, action), s.executors[x])
  {
    assert ExecutorTells(s, s.executors[x]);
    if s.executors[x].Holds() {
      if action.SendEdit? { DifferentExecutionsDifferentProposals(s, x, action.x); }
      OthersCountStays(s, action, s.executors[x].claim.proposalId);
    }
  }

  /** Where an executor that awaits or reads back, or failed, came from. */
  lemma HowItGotThere(s: System, action: Action, x: nat)
    requires Enabled(s, action) && x == Mover(s, action) && x < |s.executors| && x < |Step(s, action).executors|
    ensures
      var before, after := s.executors[x], Step(s, action).executors[x];
      && (after.AwaitingEdit? ==> action.SendEdit? && after.claim == before.claim)
      && (after.ReadingBack? ==> before.AwaitingEdit? && !action.SendEdit? && after.claim == before.claim)
      && (after.Finalizing? && after.result.state == ExecutionFailed ==>
            && !action.SendEdit? && after.claim == before.claim
            && (|| (before.PreReading? && after.result.errorCode == Some(PRECONDITION_READ_FAILED))
                || (before.AwaitingEdit? && after.result.errorCode == Some(WRITE_REJECTED))))
  {
  }

  lemma MoverTells(s: System, action: Action, x: nat)
    requires Inv(s) && FailuresTell(s) && Enabled(s, action)
    requires x == Mover(s, action) && x < |s.executors| && x < |Step(s, action).executors|
    ensures ExecutorTells(Step(s, action), Step(s, action).executors[x])
  {
    HowItGotThere(s, action, x);
    CodesDiffer();
    assert ExecutorTells(s, s.executors[x]) && ExecutorSends(s, s.executors[x]);
    if action.SendEdit? {
      SendsGrow(s, action);
      assert Note(s, action) == [Sent(s.executors[x].claim.proposalId)];
    } else {
      OnlySendsSend(s, action);
    }
  }

  lemma OneExecutorTells(s: System, action: Action, x: nat)
    requires Inv(s) && FailuresTell(s) && Enabled(s, action) && x < |Step(s, action).executors|
    ensures ExecutorTells(Step(s, action), Step(s, action).executors[x])
  {
    OneExecutorMoves(s, action);
    if x == Mover(s, action) && x < |s.executors| {
      MoverTells(s, action, x);
    } else if x < |s.executors| {
      OtherExecutorTells(s, action, x);
    }
  }

  lemma ExecutorsTell(s: System, action: Action)
    requires Inv(s) && FailuresTell(s) && Enabled(s, action)
    ensures forall x | 0 <= x < |Step(s, action).executors| ::
      ExecutorTells(Step(s, action), Step(s, action).executors[x])
  {
    forall x | 0 <= x < |Step(s, action).executors|
      ensures ExecutorTells(Step(s, action), Step(s, action).executors[x])
    {
      OneExecutorTells(s, action, x);
    }
  }

  lemma NoHolderStays(s: System, action: Action, e: nat)
    requires Sound(s) && Enabled(s, action) && e < |s.db.executions| && NoHolder(s, e)
    ensures NoHolder(Step(s, action), e)
  {
    OneExecutorMoves(s, action);
    var m := Mover(s, action);
    if m < |s.executors| && m < |Step(s, action).executors| && Step(s, action).executors[m].Holds() {
      MovedClaim(s, action, m);
    }
  }

  lemma NoHolderNoSend(s: System, action: Action, e: nat)
    requires Sound(s) && Enabled(s, action) && e < |s.db.executions| && NoHolder(s, e)
    ensures Sends(Step(s, action), s.db.executions[e].proposalId) == Sends(s, s.db.executions[e].proposalId)
  {
    if action.SendEdit? {
      var claim := s.executors[action.x].claim;
      assert ClaimFits(s.db, claim) && claim.executionId != e;
    }
    OthersCountStays(s, action, s.db.executions[e].proposalId);
  }

  lemma FailedRowStays(s: System, action: Action, e: nat)
    requires Inv(s) && Enabled(s, action) && e < |s.db.executions| && RowTells(s, e)
    requires s.db.executions[e].state == ExecutionFailed
    ensures e < |Step(s, action).db.executions| && RowTells(Step(s, action), e)
  {
    InvKept(s, action);
    assert ExecutionForward(s.db.executions[e], Step(s, action).db.executions[e]);
    CountsRise(s, action, s.db.executions[e].proposalId);
    if NoHolder(s, e) {
      NoHolderStays(s, action, e);
      NoHolderNoSend(s, action, e);
    }
  }

  /** A row that fails takes its code from the executor that finalizes it, or none from a worker. */
  lemma FailingCode(s: System, action: Action, e: nat)
    requires Sound(s) && Enabled(s, action) && e < |s.db.executions| && e < |Step(s, action).db.executions|
    requires s.db.executions[e].state != ExecutionFailed && Step(s, action).db.executions[e].state == ExecutionFailed
    ensures
      var code := Step(s, action).db.executions[e].result.errorCode;
      || (action.DoFinalize? && s.executors[action.x].claim.executionId == e
          && s.executors[action.x].result.state == ExecutionFailed && code == s.executors[action.x].result.errorCode)
      || (action.DoResolve? && code == None)
  {
    RowMoves(s, action);
  }

  lemma NewlyFailedTells(s: System, action: Action, e: nat)
    requires Inv(s) && FailuresTell(s) && Enabled(s, action)
    requires e < |s.db.executions| && e < |Step(s, action).db.executions|
    requires s.db.executions[e].state != ExecutionFailed && Step(s, action).db.executions[e].state == ExecutionFailed
    ensures RowTells(Step(s, action), e)
  {
    FailingCode(s, action, e);
    if action.DoFinalize? { FinalizedTells(s, action.x, e); }
  }

  lemma FinalizedTells(s: System, x: nat, e: nat)
    requires Inv(s) && FailuresTell(s) && Enabled(s, DoFinalize(x))
    requires e < |s.db.executions| && e < |Step(s, DoFinalize(x)).db.executions|
    requires s.db.executions[e].state != ExecutionFailed
    requires Step(s, DoFinalize(x)).db.executions[e].state == ExecutionFailed
    ensures RowTells(Step(s, DoFinalize(x)), e)
  {
    var action := DoFinalize(x);
    FailingCode(s, action, e);
    InvKept(s, action);
    assert ExecutorTells(s, s.executors[x]) && ClaimFits(s.db, s.executors[x].claim);
    assert ExecutionForward(s.db.executions[e], Step(s, action).db.executions[e]);
    OnlySendsSend(s, action);
    LeavesNoHolder(s, x);
  }

  lemma LeavesNoHolder(s: System, x: nat)
    requires Sound(s) && Enabled(s, DoFinalize(x))
    ensures NoHolder(FinalizeStep(s, x), s.executors[x].claim.executionId)
  {
    var s' := FinalizeStep(s, x);
    assert s'.executors == s.executors[x := Stopped];
    forall y | 0 <= y < |s'.executors| && s'.executors[y].Holds()
      ensures s'.executors[y].claim.executionId != s.executors[x].claim.executionId
    {
      DifferentExecutionsDifferentProposals(s, y, x);
    }
  }

  lemma FailuresKept(s: System, action: Action)
    requires Inv(s) && FailuresTell(s) && Enabled(s, action)
    ensures FailuresTell(Step(s, action))
  {
    ExecutorsTell(s, action);
    NewRowsExecuting(s, action);
    forall e | 0 <= e < |Step(s, action).db.executions|
      ensures RowTells(Step(s, action), e)
    {
      if e < |s.db.executions| && Step(s, action).db.executions[e].state == ExecutionFailed {
        if s.db.executions[e].state == ExecutionFailed {
          FailedRowStays(s, action, e);
        } else {
          NewlyFailedTells(s, action, e);
        }
      }
    }
  }

  lemma NewRowsExecuting(s: System, action: Action)
    requires Sound(s) && Enabled(s, action)
    ensures forall e | |s.db.executions| <= e < |Step(s, action).db.executions| ::
      Step(s, action).db.executions[e].state == Executing
  {
    if action.LeaseAbandoned? || action.LeaseProposal? { LeaseWritesLeases(s, action); }
  }

  lemma {:induction false} RunTells(start: System, actions: seq<Action>)
    requires Initial(start)
    ensures Inv(Run(start, actions)) && FailuresTell(Run(start, actions))
    decreases |actions|
  {
    if actions == [] {
      InitialIsSound(start);
    } else {
      var shorter, action := actions[..|actions| - 1], actions[|actions| - 1];
      RunTells(start, shorter);
      var before := Run(start, shorter);
      assert Run(start, actions) == Apply(before, action);
      InvKept(before, action);
      if Enabled(before, action) { FailuresKept(before, action); }
    }
  }

  lemma ReachableTells(s: System)
    requires Reachable(s)
    ensures Inv(s) && FailuresTell(s)
  {
    var start: System, actions: seq<Action> :| Initial(start) && s == Run(start, actions);
    RunTells(start, actions);
  }

  // ----- what the row tells

  /** A stored failure read off its own row. Unmarked, or with the code of a failed pre-read, it is
      free of edits for ever; with the code of a rejected write the edit was sent; and the only
      other case is a marked row without a code, which a worker settled from an old claim. */
  lemma FailedRowTells(s: System, e: nat)
    requires Reachable(s) && e < |s.db.executions| && s.db.executions[e].state == ExecutionFailed
    ensures
      var row := s.db.executions[e];
      && (!row.writeAttempted || row.result.errorCode == Some(PRECONDITION_READ_FAILED) ==>
            NeverSends(s, row.proposalId))
      && (row.result.errorCode == Some(WRITE_REJECTED) ==> Sent(row.proposalId) in s.log)
      && row.result.errorCode in {None, Some(PRECONDITION_READ_FAILED), Some(WRITE_REJECTED)}
  {
    ReachableTells(s);
    var row := s.db.executions[e];
    assert RowTells(s, e);
    if !row.writeAttempted {
      forall continuation: seq<Action>
        ensures Sent(row.proposalId) !in Run(s, continuation).log
      {
        UnmarkedNeverEdits(s, e, continuation);
      }
    } else if row.result.errorCode == Some(PRECONDITION_READ_FAILED) {
      assert Sends(s, row.proposalId) == 0;
      EditFree(s, e);
    }
  }

  // ----- what it does not tell

  lemma StoppedBeforeResolve(s: System) returns (a: System, b: System)
    requires RaceRow(s, true) && s.executors == [Editing(RACE_CLAIM)]
    requires s.reconcilers[0].claims == [RACE_SNAPSHOT]
    requires s.reconcilers[0].observed == Some(Response(Some("ann"), "ok"))
    ensures a == Apply(s, DoResolve(0)) && b == Apply(Apply(s, StopExecutor(0)), DoResolve(0))
    ensures a.db == b.db && a.executors == [Editing(RACE_CLAIM)] && b.executors == [Stopped]
    ensures |a.db.executions| == 1 && a.db.executions[0].proposalId == 0
    ensures a.db.executions[0].state == ExecutionFailed && a.db.executions[0].writeAttempted
    ensures a.db.executions[0].result.errorCode == None
    ensures Sends(b, 0) == Sends(s, 0)
  {
    var stopped := Apply(s, StopExecutor(0));
    assert stopped == s.(executors := [Stopped]);
    a, b := Apply(s, DoResolve(0)), Apply(stopped, DoResolve(0));
    assert a == ResolveStep(s, 0) && b == ResolveStep(stopped, 0);
    assert "ann"[0] != "bob"[0];
    assert Classify(RACE_SNAPSHOT, Response(Some("ann"), "ok")) == Verdict(ExecutionFailed, Some("ann"), None);
    OnlySendsSend(s, StopExecutor(0));
    OnlySendsSend(stopped, DoResolve(0));
  }

  lemma RaceToResolve() returns (start: System, actions: seq<Action>, s: System)
    ensures Initial(start) && Run(start, actions) == s
    ensures RaceRow(s, true) && s.executors == [Editing(RACE_CLAIM)]
    ensures s.reconcilers[0].claims == [RACE_SNAPSHOT]
    ensures s.reconcilers[0].observed == Some(Response(Some("ann"), "ok"))
  {
    start := System(EMPTY, map["P-1" := Some("ann")], multiset{}, [], [], []);
    actions, s := RaceBegins(start);
    RaceLeases(s);
    actions, s := Follow(start, actions, s, LeaseAbandoned(0, [0], "w", 200, 120, 60));
    actions, s := RaceMarks(start, actions, s);
    actions, s := RaceReads(start, actions, s);
  }

  /** The open case is open: two reachable systems with the same rows, a marked failure without a
      code, of which one is free of edits for ever and the other is not. */
  lemma RowsDoNotDecide() returns (a: System, b: System)
    ensures Reachable(a) && Reachable(b) && a.db == b.db
    ensures |a.db.executions| == 1 && a.db.executions[0].state == ExecutionFailed
    ensures a.db.executions[0].writeAttempted && a.db.executions[0].result.errorCode == None
    ensures !NeverSends(a, a.db.executions[0].proposalId) && NeverSends(b, b.db.executions[0].proposalId)
  {
    var start, actions, s := RaceToResolve();
    a, b := StoppedBeforeResolve(s);
    var toA, _ := Follow(start, actions, s, DoResolve(0));
    var stopped, t := Follow(start, actions, s, StopExecutor(0));
    var toB, _ := Follow(start, stopped, t, DoResolve(0));
    assert Reachable(a) && Reachable(b) && Reachable(s);
    NothingSentYet(s);
    OnlyTheStoppedIsFree(a, b);
  }

  lemma NothingSentYet(s: System)
    requires Reachable(s) && s.executors == [Editing(RACE_CLAIM)]
    ensures Sends(s, 0) == 0
  {
    ReachableIsSound(s);
    assert ExecutorSends(s, s.executors[0]);
  }

  lemma OnlyTheStoppedIsFree(a: System, b: System)
    requires Reachable(a) && Reachable(b) && a.db == b.db && |a.db.executions| == 1
    requires a.db.executions[0].state == ExecutionFailed && a.db.executions[0].proposalId == 0
    requires a.executors == [Editing(RACE_CLAIM)] && b.executors == [Stopped] && Sends(b, 0) == 0
    ensures !NeverSends(a, 0) && NeverSends(b, 0)
  {
    assert a.executors[0] == Editing(RACE_CLAIM);
    EditFreeExactly(a, 0);
    EditFreeExactly(b, 0);
  }
}
