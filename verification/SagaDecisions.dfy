/** Invariants of the step system, third part: the decision behind every execution and edit. */
module SagaDecisions {
  import opened Wrappers
  import opened Proposals
  import opened Transactions
  import opened Saga
  import opened SagaRows
  import opened SagaClaims
  import opened SagaEdits

  function DecisionCount(decisions: seq<Decision>, proposalId: nat): nat {
    if decisions == [] then 0
    else
      var last := |decisions| - 1;
      DecisionCount(decisions[..last], proposalId) + if decisions[last].proposalId == proposalId then 1 else 0
  }

  lemma DecisionCountGrows(decisions: seq<Decision>, decision: Decision, proposalId: nat)
    ensures DecisionCount(decisions + [decision], proposalId)
         == DecisionCount(decisions, proposalId) + (if decision.proposalId == proposalId then 1 else 0)
  {
  }

  /** An approve taken before the expiry with the stored evidence fingerprint. */
  predicate IsApproval(event: Event, proposal: Proposal, proposalId: nat) {
    && event.Decided?
    && event.decision.proposalId == proposalId
    && event.decision.approve
    && event.decision.decidedAt < proposal.expiresAt
    && event.fingerprint == proposal.fingerprint
  }

  ghost predicate ApprovedWithin(s: System, proposalId: nat, length: nat)
    requires proposalId < |s.db.proposals| && length <= |s.log|
  {
    exists j :: 0 <= j < length && IsApproval(s.log[j], s.db.proposals[proposalId], proposalId)
  }

  predicate NeedsApproval(state: ProposalState) {
    state in {Executing, ExecutedVerified, ExecutionFailed, Uncertain}
  }

  ghost predicate ProposalDecided(s: System, p: nat)
    requires p < |s.db.proposals|
  {
    && DecisionCount(s.db.decisions, p) == (if s.db.proposals[p].state == Pending then 0 else 1)
    && (NeedsApproval(s.db.proposals[p].state) || HasExecution(s.db, p) ==> ApprovedWithin(s, p, |s.log|))
  }

  ghost predicate DecisionsSound(s: System) {
    && (forall p | 0 <= p < |s.db.proposals| :: ProposalDecided(s, p))
    && (forall j | 0 <= j < |s.log| && s.log[j].Decided? ::
          && s.log[j].decision in s.db.decisions
          && s.log[j].decision.proposalId < |s.db.proposals|
          && s.db.proposals[s.log[j].decision.proposalId].state != Pending)
    && (forall i, j | 0 <= i < j < |s.log| && s.log[i].Decided? && s.log[j].Decided? ::
          s.log[i].decision.proposalId != s.log[j].decision.proposalId)
    && (forall d | d in s.db.decisions :: d.proposalId < |s.db.proposals|)
    && (forall i | 0 <= i < |s.log| && s.log[i].Sent? ::
          && s.log[i].proposalId < |s.db.proposals|
          && ApprovedWithin(s, s.log[i].proposalId, i))
  }

  lemma ApprovedForward(s: System, s': System, p: nat, length: nat)
    requires Forward(s.db, s'.db) && p < |s.db.proposals| && length <= |s.log|
    requires s.log <= s'.log && ApprovedWithin(s, p, length)
    ensures ApprovedWithin(s', p, length)
  {
  }

  /** A step that records no decision and gives no proposal a first execution unapproved. */
  ghost predicate Undeciding(s: System, s': System, note: seq<Event>) {
    && Forward(s.db, s'.db)
    && |s'.db.proposals| == |s.db.proposals|
    && s'.db.decisions == s.db.decisions
    && |note| <= 1 && s'.log == s.log + note
    && (forall ev | ev in note :: !ev.Decided?)
    && (forall p | 0 <= p < |s.db.proposals| ::
          && (s'.db.proposals[p].state == Pending <==> s.db.proposals[p].state == Pending)
          && (NeedsApproval(s'.db.proposals[p].state) || HasExecution(s'.db, p) ==>
                NeedsApproval(s.db.proposals[p].state) || HasExecution(s.db, p)))
  }

  lemma UndecidingProposals(s: System, s': System, note: seq<Event>)
    requires DecisionsSound(s) && Undeciding(s, s', note)
    ensures forall p | 0 <= p < |s'.db.proposals| :: ProposalDecided(s', p)
  {
    forall p | 0 <= p < |s'.db.proposals|
      ensures ProposalDecided(s', p)
    {
      assert ProposalDecided(s, p);
      if NeedsApproval(s'.db.proposals[p].state) || HasExecution(s'.db, p) {
        ApprovedForward(s, s', p, |s.log|);
        ApprovedLonger(s', p, |s.log|);
      }
    }
  }

  lemma ApprovedLonger(s: System, p: nat, length: nat)
    requires p < |s.db.proposals| && length <= |s.log| && ApprovedWithin(s, p, length)
    ensures ApprovedWithin(s, p, |s.log|)
  {
  }

  lemma EarlierSends(s: System, s': System, note: seq<Event>)
    requires DecisionsSound(s) && Forward(s.db, s'.db) && s'.log == s.log + note
    ensures forall i | 0 <= i < |s.log| && s'.log[i].Sent? ::
      s'.log[i].proposalId < |s'.db.proposals| && ApprovedWithin(s', s'.log[i].proposalId, i)
  {
    forall i | 0 <= i < |s.log| && s'.log[i].Sent?
      ensures s'.log[i].proposalId < |s'.db.proposals| && ApprovedWithin(s', s'.log[i].proposalId, i)
    {
      assert s'.log[i] == s.log[i];
      ApprovedForward(s, s', s.log[i].proposalId, i);
    }
  }

  lemma UndecidingKeeps(s: System, s': System, note: seq<Event>)
    requires DecisionsSound(s) && Undeciding(s, s', note)
    requires forall p: nat | Sent(p) in note :: p < |s.db.proposals| && ApprovedWithin(s, p, |s.log|)
    ensures DecisionsSound(s')
  {
    UndecidingProposals(s, s', note);
    EarlierSends(s, s', note);
    if |note| == 1 && note[0].Sent? {
      assert note[0] in note;
      ApprovedForward(s, s', note[0].proposalId, |s.log|);
    }
  }

  lemma DecisionCountZero(decisions: seq<Decision>, p: nat)
    requires forall d | d in decisions :: d.proposalId != p
    ensures DecisionCount(decisions, p) == 0
  {
  }

  lemma CreateDecides(s: System, create: CreateCommand)
    requires Sound(s) && DecisionsSound(s)
    ensures DecisionsSound(CreateStep(s, create))
  {
    var s' := Step(s, DoCreate(create));
    RowsKept(s, DoCreate(create));
    if s' != s {
      EarlierSends(s, s', []);
      forall p | 0 <= p < |s'.db.proposals|
        ensures ProposalDecided(s', p)
      {
        if p < |s.db.proposals| {
          assert ProposalDecided(s, p);
          if NeedsApproval(s'.db.proposals[p].state) || HasExecution(s'.db, p) { ApprovedForward(s, s', p, |s.log|); }
        } else {
          DecisionCountZero(s.db.decisions, p);
          forall e | 0 <= e < |s.db.executions|
            ensures s.db.executions[e].proposalId != p
          {
            assert RowFits(s.db, s.db.executions[e]);
          }
        }
      }
    }
  }

  lemma DecideApproves(s: System, decide: DecisionCommand, synchronised: bool)
    requires Sound(s) && DecisionsSound(s) && DecideStep(s, decide, synchronised) != s
    ensures
      var s' := DecideStep(s, decide, synchronised);
      forall p | 0 <= p < |s'.db.proposals| :: ProposalDecided(s', p)
  {
    var s' := DecideStep(s, decide, synchronised);
    RowsKept(s, DoDecide(decide, synchronised));
    var decision := Decision(decide.proposalId, decide.approve, decide.decidedAt, decide.idempotencyKey);
    assert s'.db.decisions == s.db.decisions + [decision];
    assert s'.log == s.log + [Decided(decision, decide.fingerprint)];
    forall p | 0 <= p < |s'.db.proposals|
      ensures ProposalDecided(s', p)
    {
      assert ProposalDecided(s, p);
      DecisionCountGrows(s.db.decisions, decision, p);
      if p == decide.proposalId {
        assert NeedsApproval(s'.db.proposals[p].state) ==> IsApproval(s'.log[|s.log|], s'.db.proposals[p], p);
        forall e | 0 <= e < |s.db.executions|
          ensures s.db.executions[e].proposalId != p
        {
          assert RowFits(s.db, s.db.executions[e]);
        }
      } else if NeedsApproval(s'.db.proposals[p].state) || HasExecution(s'.db, p) {
        ApprovedForward(s, s', p, |s.log|);
        ApprovedLonger(s', p, |s.log|);
      }
    }
  }

  lemma DecideDecides(s: System, decide: DecisionCommand, synchronised: bool)
    requires Sound(s) && DecisionsSound(s)
    ensures DecisionsSound(DecideStep(s, decide, synchronised))
  {
    var s' := DecideStep(s, decide, synchronised);
    if s' != s {
      RowsKept(s, DoDecide(decide, synchronised));
      DecideApproves(s, decide, synchronised);
      var decision := Decision(decide.proposalId, decide.approve, decide.decidedAt, decide.idempotencyKey);
      assert s'.db.decisions == s.db.decisions + [decision];
      assert s'.log == s.log + [Decided(decision, decide.fingerprint)];
      EarlierSends(s, s', [Decided(decision, decide.fingerprint)]);
    }
  }

  lemma SameExecutions(before: Database, after: Database, p: nat)
    requires Forward(before, after) && |before.executions| == |after.executions|
    ensures HasExecution(after, p) ==> HasExecution(before, p)
  {
  }

  /** Steps that neither create nor decide change a proposal's state only if it has an execution,
      and give a first execution only to a proposal that is EXECUTING. */
  lemma StatesUndecided(s: System, action: Action)
    requires Sound(s) && Enabled(s, action) && !action.DoCreate? && !action.DoDecide?
    ensures |Step(s, action).db.proposals| == |s.db.proposals|
    ensures Step(s, action).db.decisions == s.db.decisions
    ensures forall p | 0 <= p < |s.db.proposals| ::
      Step(s, action).db.proposals[p].state != s.db.proposals[p].state ==>
        && HasExecution(s.db, p)
        && s.db.proposals[p].state != Pending
        && Step(s, action).db.proposals[p].state != Pending
    ensures |Step(s, action).db.executions| != |s.db.executions| ==>
      && action.Insert?
      && |Step(s, action).db.executions| == |s.db.executions| + 1
      && Step(s, action).db.executions[..|s.db.executions|] == s.db.executions
      && (var p := Step(s, action).db.executions[|s.db.executions|].proposalId;
          p < |s.db.proposals| && s.db.proposals[p].state == Executing)
  {
    if action.LeaseAbandoned? || action.LeaseProposal? {
      LeaseWritesLeases(s, action);
    } else if action.DoFinalize? {
      FinalizeUndecided(s, action.x);
    } else if action.DoResolve? {
      ResolveUndecided(s, action.w);
    }
  }

  /** Two tables that differ only in rows with an execution, none of which is PENDING. */
  ghost predicate SettledOnly(before: Database, after: Database) {
    && |after.proposals| == |before.proposals| && after.decisions == before.decisions
    && |after.executions| == |before.executions|
    && (forall p | 0 <= p < |before.proposals| && after.proposals[p].state != before.proposals[p].state ::
          HasExecution(before, p) && before.proposals[p].state != Pending && after.proposals[p].state != Pending)
  }

  lemma SettleSettles(db: Database, e: nat, p: nat, settled: Execution)
    requires RowsAgree(db) && e < |db.executions| && db.executions[e].proposalId == p && p < |db.proposals|
    requires settled.state != Pending
    ensures SettledOnly(db, Settle(db, e, p, settled))
  {
    assert RowFits(db, db.executions[e]);
    assert HasExecution(db, p);
  }

  lemma FinalizeUndecided(s: System, x: nat)
    requires Sound(s) && Enabled(s, DoFinalize(x))
    ensures SettledOnly(s.db, FinalizeStep(s, x).db)
  {
    FinalizeKeepsRows(s, x);
    var claim, result := s.executors[x].claim, s.executors[x].result;
    var row := s.db.executions[claim.executionId];
    var settled := row.(state := result.state,
                        result := Payload(result.observed, result.errorCode, row.writeAttempted));
    SettleSettles(s.db, claim.executionId, claim.proposalId, settled);
  }

  lemma ResolveUndecided(s: System, w: nat)
    requires Sound(s) && Enabled(s, DoResolve(w))
    ensures SettledOnly(s.db, ResolveStep(s, w).db)
  {
    ResolveKeepsRows(s, w);
    var claim := s.reconcilers[w].claims[0];
    assert QueueFits(s.db, s.reconcilers[w].claims) && SnapshotFits(s.db, claim);
    var verdict := Classify(claim, s.reconcilers[w].observed.value);
    var settled := s.db.executions[claim.executionId].(
      state := verdict.state, result := EvidenceOf(claim, verdict), leaseOwner := None, leasedAt := None);
    SettleSettles(s.db, claim.executionId, claim.proposalId, settled);
  }

  lemma StepIsUndeciding(s: System, action: Action)
    requires Sound(s) && Enabled(s, action) && !action.DoCreate? && !action.DoDecide?
    ensures Undeciding(s, Step(s, action), Note(s, action))
  {
    var s' := Step(s, action);
    RowsKept(s, action);
    LogGrows(s, action);
    StatesUndecided(s, action);
    NoteIsNoDecision(s, action);
    forall p | 0 <= p < |s.db.proposals| && (NeedsApproval(s'.db.proposals[p].state) || HasExecution(s'.db, p))
      ensures NeedsApproval(s.db.proposals[p].state) || HasExecution(s.db, p)
    {
      if |s'.db.executions| == |s.db.executions| {
        SameExecutions(s.db, s'.db, p);
      }
    }
  }

  lemma NoteIsNoDecision(s: System, action: Action)
    requires Enabled(s, action) && !action.DoDecide?
    ensures forall ev | ev in Note(s, action) :: !ev.Decided?
  {
  }

  lemma DecisionsKept(s: System, action: Action)
    requires Sound(s) && EditsBounded(s) && DecisionsSound(s) && Enabled(s, action)
    ensures DecisionsSound(Step(s, action))
  {
    if action.DoCreate? {
      CreateDecides(s, action.create);
    } else if action.DoDecide? {
      DecideDecides(s, action.decide, action.synchronised);
    } else {
      StepIsUndeciding(s, action);
      if action.SendEdit? {
        var claim := s.executors[action.x].claim;
        assert Note(s, action) == [Sent(claim.proposalId)];
        assert s.db.executions[claim.executionId].proposalId == claim.proposalId;
        assert ProposalDecided(s, claim.proposalId);
      } else {
        NoteIsNoSend(s, action);
        forall p: nat
          ensures Sent(p) !in Note(s, action)
        {
          LogGrows(s, action);
          assert Note(s, action) != [Sent(p)];
        }
      }
      UndecidingKeeps(s, Step(s, action), Note(s, action));
    }
  }
}
