/** The history of a proposal: it moves along the table only, and as its one decision says. */
module SagaHistory {
  import opened Proposals
  import opened Transactions
  import opened Saga
  import opened SagaRows
  import opened SagaClaims
  import opened SagaEdits
  import opened SagaDecisions
  import opened SagaTheorems
  import opened TransactionLaws

  // ----- moves

  /** Whatever changes in a proposal's state is a move of the table. */
  ghost predicate Moved(before: Database, after: Database) {
    && |before.proposals| <= |after.proposals|
    && (forall p | 0 <= p < |before.proposals| ::
          after.proposals[p].state == before.proposals[p].state
          || (before.proposals[p].state, after.proposals[p].state) in MOVES)
    && (forall p | |before.proposals| <= p < |after.proposals| :: after.proposals[p].state == Pending)
  }

  lemma FinalizeMoves(s: System, x: nat)
    requires Enabled(s, DoFinalize(x))
    ensures Moved(s.db, FinalizeStep(s, x).db)
  {
    var claim, result := s.executors[x].claim, s.executors[x].result;
    FinalizeExactly(s.db, claim, result);
  }

  lemma ResolveMovesAlong(s: System, w: nat)
    requires Enabled(s, DoResolve(w))
    ensures Moved(s.db, ResolveStep(s, w).db)
  {
    var claim := s.reconcilers[w].claims[0];
    var verdict := Classify(claim, s.reconcilers[w].observed.value);
    ResolveExactly(s.db, claim, verdict.state, EvidenceOf(claim, verdict));
  }

  lemma DecideMoves(db: Database, c: DecisionCommand, synchronised: bool)
    requires Decide(db, c, synchronised).Commit?
    ensures Moved(db, Decide(db, c, synchronised).database)
  {
    if FindDecision(db.decisions, c.idempotencyKey).None? { DecideExactly(db, c, synchronised); }
  }

  /** Every step of every run moves a proposal along the table or leaves its state. */
  lemma StepsFollowTheTable(s: System, action: Action)
    requires Reachable(s) && Enabled(s, action)
    ensures Moved(s.db, Step(s, action).db)
  {
    ReachableIsSound(s);
    StepMoves(s, action);
  }

  lemma StepMoves(s: System, action: Action)
    requires Sound(s) && Enabled(s, action)
    ensures Moved(s.db, Step(s, action).db)
  {
    if action.LeaseAbandoned? || action.LeaseProposal? {
      LeaseWritesLeases(s, action);
    } else if action.DoFinalize? {
      FinalizeMoves(s, action.x);
    } else if action.DoResolve? {
      ResolveMovesAlong(s, action.w);
    } else if action.DoDecide? {
      if Decide(s.db, action.decide, action.synchronised).Commit? {
        DecideMoves(s.db, action.decide, action.synchronised);
      }
    }
  }

  // ----- decisions

  /** Where a decision leaves its proposal for good: expired from the expiry on, stale if it came
      with other evidence, rejected if it said so, and otherwise on its way or at an end that only
      an approved proposal reaches. */
  ghost predicate DecidedState(event: Event, proposal: Proposal) {
    event.Decided? ==>
      if event.decision.decidedAt >= proposal.expiresAt then proposal.state == Expired
      else if event.fingerprint != proposal.fingerprint then proposal.state == Stale
      else if !event.decision.approve then proposal.state == Rejected
      else proposal.state in {Executing, ExecutedVerified, ExecutionFailed, Uncertain, Stale}
  }

  ghost predicate HistorySound(s: System) {
    forall i | 0 <= i < |s.log| && s.log[i].Decided? ::
      && s.log[i].decision.proposalId < |s.db.proposals|
      && DecidedState(s.log[i], s.db.proposals[s.log[i].decision.proposalId])
  }

  ghost predicate DecidedIn(log: seq<Event>, p: nat) {
    exists i :: 0 <= i < |log| && log[i].Decided? && log[i].decision.proposalId == p
  }

  ghost predicate AllDecided(s: System) {
    forall p | 0 <= p < |s.db.proposals| && s.db.proposals[p].state != Pending :: DecidedIn(s.log, p)
  }

  /** A proposal leaves PENDING in the step that notes its decision. */
  lemma LeavesPendingDecided(s: System, action: Action, p: nat)
    requires Sound(s) && Enabled(s, action) && p < |s.db.proposals| && p < |Step(s, action).db.proposals|
    requires s.db.proposals[p].state == Pending && Step(s, action).db.proposals[p].state != Pending
    ensures DecidedIn(Step(s, action).log, p)
  {
    if !action.DoCreate? && !action.DoDecide? {
      StatesUndecided(s, action);
    } else if action.DoDecide? {
      var s', c := Step(s, action), action.decide;
      assert FindDecision(s.db.decisions, c.idempotencyKey).None?;
      DecideExactly(s.db, c, action.synchronised);
      assert s'.log[|s.log|].Decided? && s'.log[|s.log|].decision.proposalId == p;
    }
  }

  lemma DecidedLonger(log: seq<Event>, note: seq<Event>, p: nat)
    requires DecidedIn(log, p)
    ensures DecidedIn(log + note, p)
  {
    var i :| 0 <= i < |log| && log[i].Decided? && log[i].decision.proposalId == p;
    assert (log + note)[i] == log[i];
  }

  lemma AllStayDecided(s: System, action: Action)
    requires Inv(s) && AllDecided(s) && Enabled(s, action)
    ensures AllDecided(Step(s, action))
  {
    LogGrows(s, action);
    StepMoves(s, action);
    forall p | 0 <= p < |Step(s, action).db.proposals| && Step(s, action).db.proposals[p].state != Pending
      ensures DecidedIn(Step(s, action).log, p)
    {
      if s.db.proposals[p].state == Pending {
        LeavesPendingDecided(s, action, p);
      } else {
        DecidedLonger(s.log, Note(s, action), p);
      }
    }
  }

  lemma DecidedStays(event: Event, before: Proposal, after: Proposal)
    requires DecidedState(event, before)
    requires after == before.(state := after.state, version := after.version)
    requires after.state == before.state || (before.state, after.state) in MOVES
    ensures DecidedState(event, after)
  {
  }

  lemma NewDecision(s: System, c: DecisionCommand, synchronised: bool)
    requires |DecideStep(s, c, synchronised).log| > |s.log|
    ensures
      var s' := DecideStep(s, c, synchronised);
      && s'.log == s.log + [s'.log[|s.log|]] && s'.log[|s.log|].Decided?
      && s'.log[|s.log|].decision.proposalId < |s'.db.proposals|
      && DecidedState(s'.log[|s.log|], s'.db.proposals[s'.log[|s.log|].decision.proposalId])
  {
    assert FindDecision(s.db.decisions, c.idempotencyKey).None?;
    DecideExactly(s.db, c, synchronised);
  }

  lemma HistoryKept(s: System, action: Action)
    requires Inv(s) && HistorySound(s) && Enabled(s, action)
    ensures HistorySound(Step(s, action))
  {
    var s' := Step(s, action);
    InvKept(s, action);
    LogGrows(s, action);
    StepMoves(s, action);
    forall i | 0 <= i < |s'.log| && s'.log[i].Decided?
      ensures s'.log[i].decision.proposalId < |s'.db.proposals|
      ensures DecidedState(s'.log[i], s'.db.proposals[s'.log[i].decision.proposalId])
    {
      if i < |s.log| {
        OldDecisionStays(s, action, i);
      } else {
        assert s'.log[i] in Note(s, action);
        if !action.DoDecide? { NoteIsNoDecisionNow(s, action); }
        NewDecision(s, action.decide, action.synchronised);
      }
    }
  }

  lemma NoteIsNoDecisionNow(s: System, action: Action)
    requires Enabled(s, action) && !action.DoDecide?
    ensures forall ev | ev in Note(s, action) :: !ev.Decided?
  {
  }

  lemma OldDecisionStays(s: System, action: Action, i: nat)
    requires HistorySound(s) && Enabled(s, action) && i < |s.log| && s.log[i].Decided?
    requires Forward(s.db, Step(s, action).db) && Moved(s.db, Step(s, action).db) && s.log <= Step(s, action).log
    ensures Step(s, action).log[i] == s.log[i]
    ensures s.log[i].decision.proposalId < |Step(s, action).db.proposals|
    ensures DecidedState(s.log[i], Step(s, action).db.proposals[s.log[i].decision.proposalId])
  {
    var p := s.log[i].decision.proposalId;
    assert ProposalForward(s.db.proposals[p], Step(s, action).db.proposals[p]);
    DecidedStays(s.log[i], s.db.proposals[p], Step(s, action).db.proposals[p]);
  }

  lemma {:induction false} RunKeepsHistory(start: System, actions: seq<Action>)
    requires Initial(start)
    ensures Inv(Run(start, actions)) && HistorySound(Run(start, actions)) && AllDecided(Run(start, actions))
    decreases |actions|
  {
    if actions == [] {
      InitialIsSound(start);
    } else {
      var shorter, action := actions[..|actions| - 1], actions[|actions| - 1];
      RunKeepsHistory(start, shorter);
      var before := Run(start, shorter);
      assert Run(start, actions) == Apply(before, action);
      InvKept(before, action);
      if Enabled(before, action) {
        HistoryKept(before, action);
        AllStayDecided(before, action);
      }
    }
  }

  /** In every reachable state a proposal that is no longer pending has its decision in the history,
      and every decision has left its proposal where it, the expiry and the two fingerprints say. */
  lemma DecisionsSettleTheirProposals(s: System)
    requires Reachable(s)
    ensures forall p | 0 <= p < |s.db.proposals| && s.db.proposals[p].state != Pending :: DecidedIn(s.log, p)
    ensures forall i | 0 <= i < |s.log| && s.log[i].Decided? ::
      && s.log[i].decision.proposalId < |s.db.proposals|
      && DecidedState(s.log[i], s.db.proposals[s.log[i].decision.proposalId])
  {
    var start: System, actions: seq<Action> :| Initial(start) && s == Run(start, actions);
    RunKeepsHistory(start, actions);
  }
}
