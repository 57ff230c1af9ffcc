/** What holds of every run of the reassignment saga: every interleaving of any number of
    executors, reconcilers, deciders and other writers of Jira, stopping anywhere. */
module SagaTheorems {
  import opened Wrappers
  import opened Proposals
  import opened Transactions
  import opened Saga
  import opened SagaRows
  import opened SagaClaims
  import opened SagaEdits
  import opened SagaDecisions
  import opened SagaReads
  import opened SagaOutbox
  import opened SagaJira

  ghost predicate Inv(s: System) {
    && Sound(s)
    && EditsBounded(s)
    && DecisionsSound(s)
    && ReadsSound(s)
    && OutboxSound(s)
    && LeasesSound(s)
    && JiraSound(s)
  }

  lemma InitialIsSound(s: System)
    requires Initial(s)
    ensures Inv(s)
  {
  }

  lemma InvKept(s: System, action: Action)
    requires Inv(s)
    ensures Inv(Apply(s, action)) && Forward(s.db, Apply(s, action).db) && s.log <= Apply(s, action).log
  {
    if Enabled(s, action) {
      SoundKept(s, action);
      EditsKept(s, action);
      DecisionsKept(s, action);
      ReadsKept(s, action);
      OutboxKept(s, action);
      LeasesKept(s, action);
      JiraKept(s, action);
      LogGrows(s, action);
    } else {
      ForwardReflexive(s.db);
    }
  }

  lemma {:induction false} RunKeepsInv(s: System, actions: seq<Action>)
    requires Inv(s)
    ensures Inv(Run(s, actions)) && Forward(s.db, Run(s, actions).db) && s.log <= Run(s, actions).log
    decreases |actions|
  {
    if actions == [] {
      ForwardReflexive(s.db);
    } else {
      var before := Run(s, actions[..|actions| - 1]);
      RunKeepsInv(s, actions[..|actions| - 1]);
      InvKept(before, actions[|actions| - 1]);
      ForwardTransitive(s.db, before.db, Run(s, actions).db);
    }
  }

  /** A state some run reaches. */
  ghost predicate Reachable(s: System) {
    exists start: System, actions: seq<Action> :: Initial(start) && s == Run(start, actions)
  }

  lemma ReachableIsSound(s: System)
    requires Reachable(s)
    ensures Inv(s)
  {
    var start: System, actions: seq<Action> :| Initial(start) && s == Run(start, actions);
    InitialIsSound(start);
    RunKeepsInv(start, actions);
  }

  // ----- edits

  /** At most one `editJiraIssue` is ever sent per proposal. */
  lemma AtMostOneEdit(s: System, p: nat)
    requires Reachable(s)
    ensures multiset(s.log)[Sent(p)] <= 1
  {
    ReachableIsSound(s);
    if Sends(s, p) > 0 {
      var e :| 0 <= e < |s.db.executions| && s.db.executions[e].proposalId == p;
      assert RowSends(s, s.db.executions[e]);
    }
  }

  /** An execution that left EXECUTING unmarked: no edit before, none in any continuation. */
  lemma UnmarkedNeverEdits(s: System, e: nat, continuation: seq<Action>)
    requires Reachable(s) && e < |s.db.executions|
    requires s.db.executions[e].state != Executing && !s.db.executions[e].writeAttempted
    ensures Sent(s.db.executions[e].proposalId) !in s.log
    ensures Sent(s.db.executions[e].proposalId) !in Run(s, continuation).log
  {
    ReachableIsSound(s);
    RunKeepsInv(s, continuation);
    var s' := Run(s, continuation);
    assert RowSends(s, s.db.executions[e]);
    assert ExecutionForward(s.db.executions[e], s'.db.executions[e]);
    assert RowSends(s', s'.db.executions[e]);
  }

  /** Nobody between the mark and the edit of `e`, which has left EXECUTING. */
  ghost predicate NoSender(s: System, e: nat) {
    && e < |s.db.executions|
    && s.db.executions[e].state != Executing
    && (forall x | 0 <= x < |s.executors| && s.executors[x].Holds() && s.executors[x].claim.executionId == e ::
          !s.executors[x].PreReading? && !s.executors[x].Editing?)
  }

  lemma NoSenderKept(s: System, action: Action, e: nat)
    requires Sound(s) && NoSender(s, e) && Enabled(s, action)
    requires Forward(s.db, Step(s, action).db)
    ensures NoSender(Step(s, action), e)
  {
    var s' := Step(s, action);
    assert ExecutionForward(s.db.executions[e], s'.db.executions[e]);
    OneExecutorMoves(s, action);
    var m := Mover(s, action);
    if m < |s.executors| && s'.executors[m].Holds() {
      MovedClaim(s, action, m);
      if s.executors[m].Holds() && s.executors[m].claim.executionId == e {
        assert !action.Mark? && !action.PreRead?;
      }
    }
  }

  lemma NoSenderNoSend(s: System, action: Action, e: nat)
    requires Sound(s) && NoSender(s, e) && Enabled(s, action)
    ensures Sends(Step(s, action), s.db.executions[e].proposalId) == Sends(s, s.db.executions[e].proposalId)
  {
    if action.SendEdit? {
      SendsGrow(s, action);
      var claim := s.executors[action.x].claim;
      assert Note(s, action) == [Sent(claim.proposalId)];
      assert ClaimFits(s.db, claim) && claim.executionId != e;
    } else {
      OnlySendsSend(s, action);
    }
  }

  lemma {:induction false} NoSenderForEver(s: System, e: nat, continuation: seq<Action>)
    requires Inv(s) && NoSender(s, e)
    ensures NoSender(Run(s, continuation), e)
    ensures Run(s, continuation).db.executions[e].proposalId == s.db.executions[e].proposalId
    ensures Sends(Run(s, continuation), s.db.executions[e].proposalId) == Sends(s, s.db.executions[e].proposalId)
    decreases |continuation|
  {
    if continuation == [] {
    } else {
      var shorter, action := continuation[..|continuation| - 1], continuation[|continuation| - 1];
      var before := Run(s, shorter);
      NoSenderForEver(s, e, shorter);
      RunKeepsInv(s, shorter);
      if Enabled(before, action) {
        InvKept(before, action);
        NoSenderKept(before, action, e);
        NoSenderNoSend(before, action, e);
        assert ExecutionForward(before.db.executions[e], Step(before, action).db.executions[e]);
      }
    }
  }

  /** From between the mark and the edit, some continuation sends the edit. */
  lemma SenderCanSend(s: System, x: nat) returns (continuation: seq<Action>)
    requires x < |s.executors| && (s.executors[x].PreReading? || s.executors[x].Editing?)
    ensures Sent(s.executors[x].claim.proposalId) in Run(s, continuation).log
  {
    var claim := s.executors[x].claim;
    var t := s;
    continuation := [];
    if s.executors[x].PreReading? {
      continuation, t := Follow(s, continuation, t, OthersWrite(claim.issue, Some(claim.expected)));
      ReadsExpected(s, x);
      continuation, t := Follow(s, continuation, t, PreRead(x, true));
    }
    SendingSends(t, x);
    continuation, t := Follow(s, continuation, t, SendEdit(x));
  }

  /** With the issue put back to the expected assignee, the pre-read lets the executor go on. */
  lemma ReadsExpected(s: System, x: nat)
    requires x < |s.executors| && s.executors[x].PreReading?
    ensures
      var claim := s.executors[x].claim;
      var put := Apply(s, OthersWrite(claim.issue, Some(claim.expected)));
      Enabled(put, PreRead(x, true)) && Apply(put, PreRead(x, true)).executors == s.executors[x := Editing(claim)]
  {
    var claim := s.executors[x].claim;
    var put := Apply(s, OthersWrite(claim.issue, Some(claim.expected)));
    assert put == OthersWriteStep(s, claim.issue, Some(claim.expected));
    assert Apply(put, PreRead(x, true)) == PreReadStep(put, x, true);
  }

  lemma SendingSends(s: System, x: nat)
    requires x < |s.executors| && s.executors[x].Editing?
    ensures Sent(s.executors[x].claim.proposalId) in Apply(s, SendEdit(x)).log
  {
    var t := Apply(s, SendEdit(x));
    assert t == SendStep(s, x);
    assert t.log[|s.log|] == Sent(s.executors[x].claim.proposalId);
  }

  /** No edit is in the log now or after any continuation. */
  ghost predicate NeverSends(s: System, p: nat) {
    forall continuation: seq<Action> :: Sent(p) !in Run(s, continuation).log
  }

  lemma EditFree(s: System, e: nat)
    requires Inv(s) && NoSender(s, e) && Sent(s.db.executions[e].proposalId) !in s.log
    ensures NeverSends(s, s.db.executions[e].proposalId)
  {
    var p := s.db.executions[e].proposalId;
    forall continuation: seq<Action>
      ensures Sent(p) !in Run(s, continuation).log
    {
      NoSenderForEver(s, e, continuation);
      assert Sends(Run(s, continuation), p) == 0;
    }
  }

  lemma NotEditFree(s: System, e: nat)
    requires ExecutorsFit(s) && e < |s.db.executions| && s.db.executions[e].state != Executing
    requires Sent(s.db.executions[e].proposalId) in s.log || !NoSender(s, e)
    ensures !NeverSends(s, s.db.executions[e].proposalId)
  {
    var p := s.db.executions[e].proposalId;
    var continuation: seq<Action> := [];
    if Sent(p) !in s.log {
      var x :| 0 <= x < |s.executors| && s.executors[x].Holds() && s.executors[x].claim.executionId == e
               && (s.executors[x].PreReading? || s.executors[x].Editing?);
      assert ClaimFits(s.db, s.executors[x].claim);
      continuation := SenderCanSend(s, x);
    } else {
      assert Run(s, continuation) == s;
    }
    assert Sent(p) in Run(s, continuation).log;
  }

  /** Exactly when an execution that has left EXECUTING is free of edits for ever: no edit was
      sent, and nobody is between the mark and the edit. Its recorded state does not say so. */
  lemma EditFreeExactly(s: System, e: nat)
    requires Reachable(s) && e < |s.db.executions| && s.db.executions[e].state != Executing
    ensures NeverSends(s, s.db.executions[e].proposalId) <==>
              Sent(s.db.executions[e].proposalId) !in s.log && NoSender(s, e)
  {
    ReachableIsSound(s);
    if Sent(s.db.executions[e].proposalId) !in s.log && NoSender(s, e) {
      EditFree(s, e);
    } else {
      NotEditFree(s, e);
    }
  }

  /** No two processes ever hold a claim for the same proposal. */
  lemma ClaimsAreExclusive(s: System, x: nat, y: nat)
    requires Reachable(s) && x < |s.executors| && y < |s.executors|
    requires s.executors[x].Holds() && s.executors[y].Holds()
    requires s.executors[x].claim.proposalId == s.executors[y].claim.proposalId
    ensures x == y
  {
    ReachableIsSound(s);
    assert ClaimFits(s.db, s.executors[x].claim) && ClaimFits(s.db, s.executors[y].claim);
    var d, e := s.executors[x].claim.executionId, s.executors[y].claim.executionId;
    assert s.db.executions[d].proposalId == s.db.executions[e].proposalId;
    assert d == e;
  }

  /** A claim leased after the mark committed never resolves to EXECUTION_FAILED. */
  lemma MarkedLeaseNeverFails(s: System, w: nat)
    requires Reachable(s) && Enabled(s, DoResolve(w))
    requires exists i :: 0 <= i < |s.log| && i < s.reconcilers[w].since
                         && s.log[i] == Marked(s.reconcilers[w].claims[0].executionId)
    ensures Classify(s.reconcilers[w].claims[0], s.reconcilers[w].observed.value).state != ExecutionFailed
    ensures Became(s.reconcilers[w].claims[0].executionId, ExecutionFailed) !in Note(s, DoResolve(w))
  {
    ReachableIsSound(s);
    assert SnapshotTrue(s.log, s.reconcilers[w]);
    assert s.reconcilers[w].claims[0] in s.reconcilers[w].claims;
    ResolveNotesItsVerdict(s, w);
  }

  lemma ResolveNotesItsVerdict(s: System, w: nat)
    requires Enabled(s, DoResolve(w))
    ensures forall ev | ev in Note(s, DoResolve(w)) ::
      ev.Became? && ev.state == Classify(s.reconcilers[w].claims[0], s.reconcilers[w].observed.value).state
  {
  }

  /** Every edit sent comes after an approve taken before the expiry with the stored evidence
      fingerprint, and that approve is the only decision ever recorded for the proposal. */
  lemma EditsFollowOneApproval(s: System, i: nat) returns (j: nat)
    requires Reachable(s) && i < |s.log| && s.log[i].Sent?
    ensures j < i && s.log[i].proposalId < |s.db.proposals|
    ensures IsApproval(s.log[j], s.db.proposals[s.log[i].proposalId], s.log[i].proposalId)
    ensures s.log[j].decision in s.db.decisions && DecisionCount(s.db.decisions, s.log[i].proposalId) == 1
    ensures forall k | 0 <= k < |s.log| && s.log[k].Decided? &&
      s.log[k].decision.proposalId == s.log[i].proposalId :: k == j
  {
    ReachableIsSound(s);
    var p := s.log[i].proposalId;
    j :| 0 <= j < i && IsApproval(s.log[j], s.db.proposals[p], p);
    assert ProposalDecided(s, p);
    assert s.log[j].decision.proposalId == p;
  }

  /** A proposal that ends REJECTED, EXPIRED or STALE has no edit, before or after. */
  lemma RefusedNeverEdits(s: System, p: nat, continuation: seq<Action>)
    requires Reachable(s) && p < |s.db.proposals| && s.db.proposals[p].state in {Rejected, Expired, Stale}
    ensures Sent(p) !in s.log && Sent(p) !in Run(s, continuation).log
    ensures p < |Run(s, continuation).db.proposals| && Run(s, continuation).db.proposals[p] == s.db.proposals[p]
  {
    ReachableIsSound(s);
    RunKeepsInv(s, continuation);
    var s' := Run(s, continuation);
    assert ProposalForward(s.db.proposals[p], s'.db.proposals[p]);
    RefusedHasNoEdit(s, p);
    RefusedHasNoEdit(s', p);
  }

  lemma RefusedHasNoEdit(s: System, p: nat)
    requires Inv(s) && p < |s.db.proposals| && s.db.proposals[p].state in {Rejected, Expired, Stale}
    ensures Sent(p) !in s.log
  {
    forall e | 0 <= e < |s.db.executions| && s.db.executions[e].proposalId == p
      ensures Sends(s, p) == 0
    {
      assert RowFits(s.db, s.db.executions[e]) && RowSends(s, s.db.executions[e]);
    }
    assert Sends(s, p) > 0 ==> HasExecution(s.db, p);
  }

  // ----- states

  /** An execution and its proposal always have the same state, no proposal has two executions,
      and APPROVED is never stored. */
  lemma StatesAgree(s: System)
    requires Reachable(s)
    ensures forall e | 0 <= e < |s.db.executions| ::
      && s.db.executions[e].proposalId < |s.db.proposals|
      && s.db.executions[e].state == s.db.proposals[s.db.executions[e].proposalId].state
    ensures forall e, f | 0 <= e < f < |s.db.executions| ::
      s.db.executions[e].proposalId != s.db.executions[f].proposalId
    ensures forall p | 0 <= p < |s.db.proposals| :: s.db.proposals[p].state != Approved
  {
    ReachableIsSound(s);
    forall e | 0 <= e < |s.db.executions|
      ensures RowFits(s.db, s.db.executions[e])
    {
    }
  }

  /** `finalize` and `resolve` never meet an illegal transition or a missing row. */
  lemma SettlingNeverRaises(s: System, x: nat, w: nat)
    requires Reachable(s)
    ensures Enabled(s, DoFinalize(x)) ==> Finalize(s.db, s.executors[x].claim, s.executors[x].result).Commit?
    ensures Enabled(s, DoResolve(w)) ==>
      var claim := s.reconcilers[w].claims[0];
      var verdict := Classify(claim, s.reconcilers[w].observed.value);
      Resolve(s.db, claim, verdict.state, EvidenceOf(claim, verdict)).Commit?
  {
    ReachableIsSound(s);
    if Enabled(s, DoFinalize(x)) { FinalizeKeepsRows(s, x); }
    if Enabled(s, DoResolve(w)) { ResolveKeepsRows(s, w); }
  }

  /** Terminal rows never change, the version never falls, and it rises strictly whenever the
      state has changed. */
  ghost predicate MovedForward(before: Database, after: Database) {
    && |before.proposals| <= |after.proposals|
    && |before.executions| <= |after.executions|
    && (forall p | 0 <= p < |before.proposals| ::
          && (before.proposals[p].state in TERMINAL_STATES ==> after.proposals[p] == before.proposals[p])
          && before.proposals[p].version <= after.proposals[p].version
          && (after.proposals[p].state != before.proposals[p].state ==>
                before.proposals[p].version < after.proposals[p].version))
    && (forall e | 0 <= e < |before.executions| && before.executions[e].state in TERMINAL_STATES ::
          && after.executions[e].state == before.executions[e].state
          && after.executions[e].result == before.executions[e].result
          && after.executions[e].writeAttempted == before.executions[e].writeAttempted)
  }

  lemma ForwardMeans(before: Database, after: Database)
    requires Forward(before, after)
    ensures MovedForward(before, after)
  {
  }

  lemma HistoryMovesForward(s: System, continuation: seq<Action>)
    requires Reachable(s)
    ensures MovedForward(s.db, Run(s, continuation).db)
  {
    ReachableIsSound(s);
    RunKeepsInv(s, continuation);
    ForwardMeans(s.db, Run(s, continuation).db);
  }

  /** A `finalize` that comes after the execution was settled changes no row. */
  lemma LateFinalizeChangesNothing(s: System, x: nat)
    requires Reachable(s) && Enabled(s, DoFinalize(x))
    ensures s.executors[x].claim.executionId < |s.db.executions|
    ensures s.db.executions[s.executors[x].claim.executionId].state != Executing ==> FinalizeStep(s, x).db == s.db
  {
    ReachableIsSound(s);
    assert ClaimFits(s.db, s.executors[x].claim);
  }

  /** A `resolve` that comes after a terminal state, or repeats the state, changes no row. */
  lemma LateResolveChangesNothing(s: System, w: nat)
    requires Reachable(s) && Enabled(s, DoResolve(w))
    ensures s.reconcilers[w].claims[0].executionId < |s.db.executions|
    ensures
      var claim := s.reconcilers[w].claims[0];
      var state := s.db.executions[claim.executionId].state;
      state in TERMINAL_STATES || state == Classify(claim, s.reconcilers[w].observed.value).state ==>
        ResolveStep(s, w).db == s.db
  {
    ReachableIsSound(s);
    SoundLateResolve(s, w);
  }

  lemma SoundLateResolve(s: System, w: nat)
    requires Sound(s) && Enabled(s, DoResolve(w))
    ensures s.reconcilers[w].claims[0].executionId < |s.db.executions|
    ensures
      var claim := s.reconcilers[w].claims[0];
      var state := s.db.executions[claim.executionId].state;
      state in TERMINAL_STATES || state == Classify(claim, s.reconcilers[w].observed.value).state ==>
        ResolveStep(s, w).db == s.db
  {
    assert QueueFits(s.db, s.reconcilers[w].claims);
    assert SnapshotFits(s.db, s.reconcilers[w].claims[0]);
  }

  // ----- Jira

  /** EXECUTED_VERIFIED is recorded only after a read, made since the execution began, returned the
      proposed assignee. */
  lemma VerifiedWasRead(s: System, e: nat)
    requires Reachable(s) && e < |s.db.executions| && s.db.executions[e].state == ExecutedVerified
    ensures s.db.executions[e].proposalId < |s.db.proposals|
    ensures ReadAfter(s.log, e, Some(s.db.proposals[s.db.executions[e].proposalId].proposed))
  {
    ReachableIsSound(s);
    assert RowRead(s, e);
  }

  /** The observed assignee stored with an execution, whatever its state, was read from Jira for it
      since it began; with EXECUTED_VERIFIED it is the proposed one. */
  lemma EvidenceWasRead(s: System, e: nat)
    requires Reachable(s) && e < |s.db.executions| && s.db.executions[e].result.observed.Some?
    ensures ReadAfter(s.log, e, s.db.executions[e].result.observed)
    ensures s.db.executions[e].proposalId < |s.db.proposals|
    ensures s.db.executions[e].state == ExecutedVerified ==>
      s.db.executions[e].result.observed == Some(s.db.proposals[s.db.executions[e].proposalId].proposed)
  {
    ReachableIsSound(s);
    assert RowRead(s, e);
  }

  /** If nobody else writes the issue and it began at the expected assignee, then a verified
      execution has applied exactly one edit, none is left in flight, and Jira holds the proposed
      assignee: at once and for as long as nobody else writes. */
  lemma VerifiedStays(s: System, e: nat, continuation: seq<Action>)
    requires Reachable(s) && e < |s.db.executions| && s.db.executions[e].state == ExecutedVerified
    requires e < |Run(s, continuation).db.executions|
    requires RowsAgree(Run(s, continuation).db)
    requires Quiet(Run(s, continuation).log, e, ProposalOf(Run(s, continuation).db, e))
    ensures
      var after, proposal := Run(s, continuation), ProposalOf(Run(s, continuation).db, e);
      && Applied(after.log, e, proposal) == 1
      && after.inFlight[EditFor(e, proposal)] == 0
      && Cell(after.jira, proposal.issue) == Some(proposal.proposed)
  {
    ReachableIsSound(s);
    RunKeepsInv(s, continuation);
    var after := Run(s, continuation);
    ProposalStays(s, after, e);
    assert ExecutionForward(s.db.executions[e], after.db.executions[e]);
    assert RowRead(after, e);
    assert WritesFit(after, e) && CellFits(after, e, ProposalOf(after.db, e));
    assert RowSends(after, after.db.executions[e]);
  }

  // ----- outbox

  /** The outbox holds exactly one notice for an execution that has ever been UNCERTAIN, and none
      for any other. */
  lemma OneNoticeIfEverUncertain(s: System, e: nat)
    requires Reachable(s)
    ensures multiset(s.db.outbox)[UncertainExecution(e)] == (if Became(e, Uncertain) in s.log then 1 else 0)
    ensures e < |s.db.executions| && s.db.executions[e].state == Uncertain ==> Became(e, Uncertain) in s.log
  {
    ReachableIsSound(s);
    if e < |s.db.executions| { assert NoticeFits(s, e); }
  }
}
