/** How an execution leaves UNCERTAIN once no worker holds a claim from before its mark. */
module SagaUncertain {
  import opened Wrappers
  import opened Proposals
  import opened Transactions
  import opened JiraMutation
  import opened Saga
  import opened SagaRows
  import opened SagaClaims
  import opened SagaReads
  import opened SagaOutbox
  import opened SagaJira
  import opened SagaTheorems

  /** A marked UNCERTAIN row, and every claim held for it carries the mark. */
  ghost predicate Marooned(s: System, e: nat) {
    && e < |s.db.executions|
    && s.db.executions[e].state == Uncertain && s.db.executions[e].writeAttempted
    && (forall w | 0 <= w < |s.reconcilers| :: ClaimsMarked(s.reconcilers[w].claims, e))
  }

  predicate ClaimsMarked(claims: seq<ReconciliationClaim>, e: nat) {
    forall k | 0 <= k < |claims| && claims[k].executionId == e :: claims[k].writeAttempted
  }

  /** Worker `w` is about to resolve `e` after reading its proposed assignee. */
  predicate HasSeen(s: System, w: nat, e: nat) {
    && w < |s.reconcilers| && s.reconcilers[w].claims != [] && s.reconcilers[w].claims[0].executionId == e
    && s.reconcilers[w].observed.Some? && s.reconcilers[w].observed.value.Response?
    && s.reconcilers[w].observed.value.assignee == Some(s.reconcilers[w].claims[0].proposed)
  }

  /** The step in which a worker reads the proposed assignee of `e`. */
  predicate Sees(s: System, action: Action, e: nat)
    requires Enabled(s, action)
  {
    && action.Observe? && action.answered
    && s.reconcilers[action.w].claims[0].executionId == e
    && Cell(s.jira, s.reconcilers[action.w].claims[0].issue) == Some(s.reconcilers[action.w].claims[0].proposed)
  }

  ghost predicate Unseen(s: System, e: nat) {
    forall w | 0 <= w < |s.reconcilers| :: !HasSeen(s, w, e)
  }

  // ----- one step

  lemma MarkedVerdict(claim: ReconciliationClaim, reply: Reply)
    requires claim.writeAttempted
    ensures Classify(claim, reply).state == ExecutedVerified
        <==> reply.Response? && reply.assignee == Some(claim.proposed)
    ensures Classify(claim, reply).state in {ExecutedVerified, Uncertain}
  {
  }

  /** Exactly how such a row can leave UNCERTAIN: by the resolve of a worker that has read the
      proposed assignee, and then it becomes EXECUTED_VERIFIED. */
  lemma LeavesUncertainExactly(s: System, action: Action, e: nat)
    requires Reachable(s) && Marooned(s, e) && Enabled(s, action)
    ensures e < |Step(s, action).db.executions|
    ensures Step(s, action).db.executions[e].state != Uncertain <==> action.DoResolve? && HasSeen(s, action.w, e)
    ensures Step(s, action).db.executions[e].state in {Uncertain, ExecutedVerified}
  {
    ReachableIsSound(s);
    LeavesExactly(s, action, e);
  }

  lemma LeavesExactly(s: System, action: Action, e: nat)
    requires Sound(s) && Marooned(s, e) && Enabled(s, action)
    ensures e < |Step(s, action).db.executions|
    ensures Step(s, action).db.executions[e].state != Uncertain <==> action.DoResolve? && HasSeen(s, action.w, e)
    ensures Step(s, action).db.executions[e].state in {Uncertain, ExecutedVerified}
  {
    RowMoves(s, action);
    if action.DoResolve? && s.reconcilers[action.w].claims[0].executionId == e {
      MarkedVerdict(s.reconcilers[action.w].claims[0], s.reconcilers[action.w].observed.value);
      ResolvesTo(s, action.w, e);
    }
  }

  lemma ResolvesTo(s: System, w: nat, e: nat)
    requires Sound(s) && Enabled(s, DoResolve(w)) && s.reconcilers[w].claims[0].executionId == e
    requires e < |s.db.executions| && s.db.executions[e].state == Uncertain
    ensures e < |ResolveStep(s, w).db.executions|
    ensures ResolveStep(s, w).db.executions[e].state
         == Classify(s.reconcilers[w].claims[0], s.reconcilers[w].observed.value).state
  {
    ResolveKeepsRows(s, w);
  }

  lemma LeasedMarked(s: System, rows: seq<nat>, e: nat)
    requires forall r | r in rows :: r < |s.db.executions| && s.db.executions[r].proposalId < |s.db.proposals|
    requires e < |s.db.executions| && s.db.executions[e].writeAttempted
    ensures ClaimsMarked(ClaimsOf(s.db, rows), e)
  {
    assert forall k | 0 <= k < |rows| :: rows[k] in rows;
  }

  lemma ClaimsStayMarked(s: System, action: Action, w: nat, e: nat)
    requires Marooned(s, e) && Enabled(s, action) && w < |Step(s, action).reconcilers|
    ensures ClaimsMarked(Step(s, action).reconcilers[w].claims, e)
  {
    ReconcilerMoves(s, action, w);
    var after := Step(s, action).reconcilers[w];
    if w < |s.reconcilers| {
      assert ClaimsMarked(s.reconcilers[w].claims, e);
    }
    if exists rows: seq<nat> ::
         && (forall r | r in rows :: r < |s.db.executions| && s.db.executions[r].proposalId < |s.db.proposals|)
         && after.claims == ClaimsOf(s.db, rows) {
      var rows: seq<nat> :|
         && (forall r | r in rows :: r < |s.db.executions| && s.db.executions[r].proposalId < |s.db.proposals|)
         && after.claims == ClaimsOf(s.db, rows);
      LeasedMarked(s, rows, e);
    }
  }

  /** A worker has seen the proposed assignee only by reading it. */
  lemma SeenBySeeing(s: System, action: Action, w: nat, e: nat)
    requires Enabled(s, action) && HasSeen(Step(s, action), w, e) && !HasSeen(s, w, e)
    ensures Sees(s, action, e)
  {
  }

  lemma MaroonedStays(s: System, action: Action, e: nat)
    requires Inv(s) && Marooned(s, e) && Unseen(s, e) && Enabled(s, action) && !Sees(s, action, e)
    ensures Marooned(Step(s, action), e) && Unseen(Step(s, action), e)
  {
    InvKept(s, action);
    LeavesExactly(s, action, e);
    assert ExecutionForward(s.db.executions[e], Step(s, action).db.executions[e]);
    forall w | 0 <= w < |Step(s, action).reconcilers|
      ensures ClaimsMarked(Step(s, action).reconcilers[w].claims, e) && !HasSeen(Step(s, action), w, e)
    {
      ClaimsStayMarked(s, action, w, e);
      if HasSeen(Step(s, action), w, e) && !HasSeen(s, w, e) { SeenBySeeing(s, action, w, e); }
    }
  }

  // ----- whole continuations

  /** No step of the continuation reads the proposed assignee of `e` for a worker. */
  predicate NeverSeen(s: System, e: nat, continuation: seq<Action>) {
    forall k | 0 <= k < |continuation| ::
      var before := Run(s, continuation[..k]);
      Enabled(before, continuation[k]) ==> !Sees(before, continuation[k], e)
  }

  lemma NeverSeenBefore(s: System, e: nat, continuation: seq<Action>, n: nat)
    requires NeverSeen(s, e, continuation) && n <= |continuation|
    ensures NeverSeen(s, e, continuation[..n])
  {
    forall k | 0 <= k < n
      ensures continuation[..n][..k] == continuation[..k] && continuation[..n][k] == continuation[k]
    {
    }
  }

  lemma {:induction false} StaysMarooned(s: System, e: nat, continuation: seq<Action>)
    requires Inv(s) && Marooned(s, e) && Unseen(s, e) && NeverSeen(s, e, continuation)
    ensures Marooned(Run(s, continuation), e) && Unseen(Run(s, continuation), e)
    decreases |continuation|
  {
    if continuation == [] {
    } else {
      var n := |continuation| - 1;
      var shorter, action := continuation[..n], continuation[n];
      NeverSeenBefore(s, e, continuation, n);
      StaysMarooned(s, e, shorter);
      RunKeepsInv(s, shorter);
      var before := Run(s, shorter);
      assert Run(s, continuation) == Apply(before, action);
      if Enabled(before, action) { MaroonedStays(before, action, e); }
    }
  }

  /** A marked UNCERTAIN execution without an older claim in anybody's hand stays UNCERTAIN, through
      every lease, read, resolve, finalize and crash, as long as no worker reads its proposed
      assignee in Jira. */
  lemma UncertainUntilSeen(s: System, e: nat, continuation: seq<Action>)
    requires Reachable(s) && Marooned(s, e) && Unseen(s, e) && NeverSeen(s, e, continuation)
    ensures e < |Run(s, continuation).db.executions| && Run(s, continuation).db.executions[e].state == Uncertain
  {
    ReachableIsSound(s);
    StaysMarooned(s, e, continuation);
  }

  /** In particular while Jira never holds that assignee: an execution whose edit was lost is not
      settled by reconciliation, however often it is tried. */
  lemma LostEditStaysUncertain(s: System, e: nat, continuation: seq<Action>)
    requires Reachable(s) && Marooned(s, e) && Unseen(s, e)
    requires RowsAgree(s.db)
    requires forall k | 0 <= k < |continuation| ::
      Cell(Run(s, continuation[..k]).jira, ProposalOf(s.db, e).issue) != Some(ProposalOf(s.db, e).proposed)
    ensures e < |Run(s, continuation).db.executions| && Run(s, continuation).db.executions[e].state == Uncertain
  {
    ReachableIsSound(s);
    forall k | 0 <= k < |continuation| && Enabled(Run(s, continuation[..k]), continuation[k])
      ensures !Sees(Run(s, continuation[..k]), continuation[k], e)
    {
      RunKeepsInv(s, continuation[..k]);
      NotThereNotSeen(s, Run(s, continuation[..k]), continuation[k], e);
    }
    UncertainUntilSeen(s, e, continuation);
  }

  lemma NotThereNotSeen(s: System, later: System, action: Action, e: nat)
    requires Inv(s) && Inv(later) && Forward(s.db, later.db) && e < |s.db.executions| && Enabled(later, action)
    requires Cell(later.jira, ProposalOf(s.db, e).issue) != Some(ProposalOf(s.db, e).proposed)
    ensures !Sees(later, action, e)
  {
    if Sees(later, action, e) {
      var claims := later.reconcilers[action.w].claims;
      assert QueueFits(later.db, claims) && SnapshotFits(later.db, claims[0]);
      ProposalStays(s, later, e);
    }
  }
}
