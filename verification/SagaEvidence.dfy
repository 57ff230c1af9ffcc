/** What the rows of a settled execution say: its state, what was observed and the code fit together,
    over every run. */
module SagaEvidence {
  import opened Wrappers
  import opened Proposals
  import opened Transactions
  import opened JiraMutation
  import opened Saga
  import opened SagaRows
  import opened SagaClaims
  import opened SagaReads
  import opened SagaJira
  import opened SagaTheorems

  /** The evidence each state is stored with: verified with the proposed assignee, failed without an
      observation and with a code, or by a worker with the expected assignee and no code, uncertain
      with a code and not with the proposed assignee, stale with another than the expected one. */
  predicate EvidenceFits(state: ProposalState, observed: Option<string>, code: Option<string>,
                         expected: string, proposed: string) {
    match state
    case ExecutedVerified => observed == Some(proposed) && code == None
    case ExecutionFailed => if code.Some? then observed == None else observed == Some(expected)
    case Uncertain => observed != Some(proposed) && code.Some?
    case Stale => observed != Some(expected) && code == None
    case _ => true
  }

  predicate ResultFits(executor: Executor) {
    executor.Finalizing? ==>
      EvidenceFits(executor.result.state, executor.result.observed, executor.result.errorCode,
                   executor.claim.expected, executor.claim.proposed)
  }

  ghost predicate RowEvidence(s: System, e: nat)
    requires e < |s.db.executions| && RowFits(s.db, s.db.executions[e])
  {
    var row, proposal := s.db.executions[e], ProposalOf(s.db, e);
    EvidenceFits(row.state, row.result.observed, row.result.errorCode, proposal.expected, proposal.proposed)
  }

  ghost predicate EvidenceSound(s: System)
    requires RowsAgree(s.db)
  {
    && (forall x | 0 <= x < |s.executors| :: ResultFits(s.executors[x]))
    && (forall e | 0 <= e < |s.db.executions| :: RowEvidence(s, e))
  }

  lemma VerdictFits(claim: ReconciliationClaim, reply: Reply)
    requires claim.expected != claim.proposed
    ensures
      var verdict := Classify(claim, reply);
      EvidenceFits(verdict.state, verdict.observed, verdict.errorCode, claim.expected, claim.proposed)
  {
  }

  lemma ResultsFit(s: System, action: Action)
    requires Enabled(s, action) && forall x | 0 <= x < |s.executors| :: ResultFits(s.executors[x])
    ensures forall x | 0 <= x < |Step(s, action).executors| :: ResultFits(Step(s, action).executors[x])
  {
    OneExecutorMoves(s, action);
    forall x | 0 <= x < |Step(s, action).executors|
      ensures ResultFits(Step(s, action).executors[x])
    {
      if x == Mover(s, action) && x < |s.executors| { MovedResultFits(s, action, x); }
    }
  }

  lemma MovedResultFits(s: System, action: Action, x: nat)
    requires Enabled(s, action) && x == Mover(s, action) && x < |s.executors| && x < |Step(s, action).executors|
    ensures ResultFits(Step(s, action).executors[x])
  {
    if Step(s, action).executors[x].Finalizing? {
      assert action.PreRead? || action.EditReply? || action.ReadBack?;
    }
  }

  /** Where the payload of a row that changes its state comes from. */
  lemma MovedPayload(s: System, action: Action, e: nat)
    requires Sound(s) && Enabled(s, action) && e < |s.db.executions| && e < |Step(s, action).db.executions|
    requires Step(s, action).db.executions[e].state != s.db.executions[e].state
    ensures
      var after := Step(s, action).db.executions[e];
      if action.DoFinalize? then
        var executor := s.executors[action.x];
        && executor.claim.executionId == e && after.state == executor.result.state
        && after.result.observed == executor.result.observed && after.result.errorCode == executor.result.errorCode
      else
        && action.DoResolve? && s.reconcilers[action.w].claims[0].executionId == e
        && (var verdict := Classify(s.reconcilers[action.w].claims[0], s.reconcilers[action.w].observed.value);
            && after.state == verdict.state
            && after.result == EvidenceOf(s.reconcilers[action.w].claims[0], verdict))
  {
    RowMoves(s, action);
  }

  lemma KeptPayload(s: System, action: Action, e: nat)
    requires Sound(s) && Enabled(s, action) && e < |s.db.executions| && e < |Step(s, action).db.executions|
    requires Step(s, action).db.executions[e].state == s.db.executions[e].state != Executing
    ensures Step(s, action).db.executions[e].result == s.db.executions[e].result
  {
    if action.LeaseAbandoned? || action.LeaseProposal? { LeaseWritesLeases(s, action); }
  }

  lemma MovedRowFits(s: System, action: Action, e: nat)
    requires Inv(s) && EvidenceSound(s) && Enabled(s, action)
    requires e < |s.db.executions| && e < |Step(s, action).db.executions|
    requires Step(s, action).db.executions[e].state != s.db.executions[e].state
    ensures
      var after, proposal := Step(s, action).db.executions[e], ProposalOf(s.db, e);
      EvidenceFits(after.state, after.result.observed, after.result.errorCode, proposal.expected, proposal.proposed)
  {
    MovedPayload(s, action, e);
    if action.DoFinalize? {
      assert ResultFits(s.executors[action.x]) && ClaimFits(s.db, s.executors[action.x].claim);
    } else {
      var claims := s.reconcilers[action.w].claims;
      assert QueueFits(s.db, claims) && SnapshotFits(s.db, claims[0]);
      VerdictFits(claims[0], s.reconcilers[action.w].observed.value);
    }
  }

  lemma RowEvidenceKept(s: System, action: Action, e: nat)
    requires Inv(s) && EvidenceSound(s) && Enabled(s, action) && e < |s.db.executions|
    ensures RowsAgree(Step(s, action).db) && e < |Step(s, action).db.executions| && RowEvidence(Step(s, action), e)
  {
    InvKept(s, action);
    ProposalStays(s, Step(s, action), e);
    assert RowEvidence(s, e);
    if Step(s, action).db.executions[e].state != s.db.executions[e].state {
      MovedRowFits(s, action, e);
    } else if s.db.executions[e].state != Executing {
      KeptPayload(s, action, e);
    }
  }

  lemma EvidenceKept(s: System, action: Action)
    requires Inv(s) && EvidenceSound(s) && Enabled(s, action)
    ensures RowsAgree(Step(s, action).db) && EvidenceSound(Step(s, action))
  {
    InvKept(s, action);
    ResultsFit(s, action);
    FreshRowsExecute(s, action);
    forall e | 0 <= e < |Step(s, action).db.executions|
      ensures RowEvidence(Step(s, action), e)
    {
      if e < |s.db.executions| { RowEvidenceKept(s, action, e); }
    }
  }

  lemma FreshRowsExecute(s: System, action: Action)
    requires Sound(s) && Enabled(s, action)
    ensures forall e | |s.db.executions| <= e < |Step(s, action).db.executions| ::
      Step(s, action).db.executions[e].state == Executing
  {
    if action.LeaseAbandoned? || action.LeaseProposal? { LeaseWritesLeases(s, action); }
  }

  lemma {:induction false} RunFits(start: System, actions: seq<Action>)
    requires Initial(start)
    ensures Inv(Run(start, actions)) && EvidenceSound(Run(start, actions))
    decreases |actions|
  {
    if actions == [] {
      InitialIsSound(start);
    } else {
      var shorter, action := actions[..|actions| - 1], actions[|actions| - 1];
      RunFits(start, shorter);
      var before := Run(start, shorter);
      assert Run(start, actions) == Apply(before, action);
      InvKept(before, action);
      if Enabled(before, action) { EvidenceKept(before, action); }
    }
  }

  /** In every reachable state, each settled execution is stored with the evidence of its state. */
  lemma SettledWithItsEvidence(s: System, e: nat)
    requires Reachable(s) && e < |s.db.executions|
    ensures s.db.executions[e].proposalId < |s.db.proposals|
    ensures
      var row := s.db.executions[e];
      var proposal := s.db.proposals[row.proposalId];
      && (row.state == ExecutedVerified ==>
            row.result.observed == Some(proposal.proposed) && row.result.errorCode == None)
      && (row.state == ExecutionFailed ==>
            if row.result.errorCode.Some? then row.result.observed == None
            else row.result.observed == Some(proposal.expected))
      && (row.state == Uncertain ==> row.result.observed != Some(proposal.proposed) && row.result.errorCode.Some?)
      && (row.state == Stale ==> row.result.observed != Some(proposal.expected) && row.result.errorCode == None)
  {
    var start: System, actions: seq<Action> :| Initial(start) && s == Run(start, actions);
    RunFits(start, actions);
    assert RowEvidence(s, e);
  }

  /** A failure without a code was recorded by a worker that read the expected assignee for the
      execution since it began: nobody else's reading leads there. */
  lemma CodelessFailureSawExpected(s: System, e: nat)
    requires Reachable(s) && e < |s.db.executions|
    requires s.db.executions[e].state == ExecutionFailed && s.db.executions[e].result.errorCode == None
    ensures s.db.executions[e].proposalId < |s.db.proposals|
    ensures ReadAfter(s.log, e, Some(s.db.proposals[s.db.executions[e].proposalId].expected))
  {
    SettledWithItsEvidence(s, e);
    EvidenceWasRead(s, e);
  }
}
