/** Invariants of the step system, fifth part: what the outbox holds, and what a lease saw. */
module SagaOutbox {
  import opened Proposals
  import opened Transactions
  import opened Saga
  import opened SagaRows
  import opened SagaClaims
  import opened SagaEdits
  import opened SagaReads

  // ----- outbox

  function Notices(db: Database, e: nat): nat {
    multiset(db.outbox)[UncertainExecution(e)]
  }

  predicate NoticeFits(s: System, e: nat)
    requires e < |s.db.executions|
  {
    && Notices(s.db, e) == (if Became(e, Uncertain) in s.log then 1 else 0)
    && (s.db.executions[e].state == Executing ==> Became(e, Uncertain) !in s.log)
    && (s.db.executions[e].state == Uncertain ==> Became(e, Uncertain) in s.log)
  }

  ghost predicate OutboxSound(s: System) {
    && (forall e | 0 <= e < |s.db.executions| :: NoticeFits(s, e))
    && (forall key | key in s.db.outbox && key.UncertainExecution? :: key.executionId < |s.db.executions|)
    && (forall ev | ev in s.log && ev.Became? :: ev.executionId < |s.db.executions|)
  }

  lemma OutboxMoves(s: System, action: Action)
    requires Sound(s) && Enabled(s, action)
    ensures forall e: nat | Note(s, action) == [Became(e, Uncertain)] ::
      Step(s, action).db.outbox == OutboxAppend(s.db.outbox, UncertainExecution(e))
    ensures (forall e: nat :: Note(s, action) != [Became(e, Uncertain)]) ==> Step(s, action).db.outbox == s.db.outbox
  {
    if action.DoFinalize? {
      FinalizeKeepsRows(s, action.x);
      var claim, result := s.executors[action.x].claim, s.executors[action.x].result;
      if s.db.executions[claim.executionId].state == Executing {
        assert Note(s, action) == [Became(claim.executionId, result.state)];
      }
    } else if action.DoResolve? {
      ResolveKeepsRows(s, action.w);
      var claim := s.reconcilers[action.w].claims[0];
      var verdict := Classify(claim, s.reconcilers[action.w].observed.value);
      if ResolveMoves(s.db, claim, verdict.state) {
        assert Note(s, action) == [Became(claim.executionId, verdict.state)];
      }
    } else {
      WritesWithoutMoving(s, action);
      var note := Note(s, action);
      if |note| > 0 { assert note[0] in note && !note[0].Became?; }
      assert forall e: nat :: note != [Became(e, Uncertain)];
    }
  }

  /** The notice invariant of one row across a step that appends `note` to the log. */
  lemma NoticeAcross(s: System, s': System, note: seq<Event>, e: nat)
    requires e < |s.db.executions| && e < |s'.db.executions| && NoticeFits(s, e)
    requires s'.log == s.log + note && |note| <= 1
    requires s'.db.executions[e].state != s.db.executions[e].state ==> note == [Became(e, s'.db.executions[e].state)]
    requires forall state | note == [Became(e, state)] :: s'.db.executions[e].state == state
    requires s'.db.executions[e].state in {Executing, Uncertain} ==>
      s.db.executions[e].state in {Executing, s'.db.executions[e].state}
    requires note == [Became(e, Uncertain)] ==> s.db.executions[e].state == Executing
    requires forall f: nat | note == [Became(f, Uncertain)] ::
      s'.db.outbox == OutboxAppend(s.db.outbox, UncertainExecution(f))
    requires (forall f: nat :: note != [Became(f, Uncertain)]) ==> s'.db.outbox == s.db.outbox
    ensures NoticeFits(s', e)
  {
  }

  /** An execution reaches UNCERTAIN only from EXECUTING, and is never EXECUTING again. */
  lemma UncertainFromExecuting(s: System, action: Action, e: nat)
    requires Sound(s) && Enabled(s, action) && e < |s.db.executions| && e < |Step(s, action).db.executions|
    ensures
      var before, after := s.db.executions[e].state, Step(s, action).db.executions[e].state;
      && (after in {Executing, Uncertain} ==> before in {Executing, after})
      && (Note(s, action) == [Became(e, Uncertain)] ==> before == Executing)
  {
    RowMoves(s, action);
    RowsKept(s, action);
    assert ExecutionForward(s.db.executions[e], Step(s, action).db.executions[e]);
    if Note(s, action) == [Became(e, Uncertain)] {
      assert Note(s, action)[0] in Note(s, action);
    }
    assert RowFits(s.db, s.db.executions[e]);
  }

  lemma NoticeKept(s: System, action: Action, e: nat)
    requires Sound(s) && OutboxSound(s) && Enabled(s, action) && e < |Step(s, action).db.executions|
    ensures NoticeFits(Step(s, action), e)
  {
    var s', note := Step(s, action), Note(s, action);
    LogGrows(s, action);
    RowMoves(s, action);
    OutboxMoves(s, action);
    if e < |s.db.executions| {
      UncertainFromExecuting(s, action, e);
      forall state | note == [Became(e, state)]
        ensures s'.db.executions[e].state == state
      {
        assert note[0] in note;
      }
      NoticeAcross(s, s', note, e);
    } else {
      NewRowNotice(s, action, e);
    }
  }

  lemma NewRowNotice(s: System, action: Action, e: nat)
    requires Sound(s) && OutboxSound(s) && Enabled(s, action)
    requires |s.db.executions| <= e < |Step(s, action).db.executions|
    ensures NoticeFits(Step(s, action), e)
  {
    NewRowsExecute(s, action);
    NewRowsAreFirst(s, action);
    LogGrows(s, action);
    RowMoves(s, action);
    OutboxMoves(s, action);
    assert action.Insert?;
    assert forall f: nat :: Note(s, action) != [Became(f, Uncertain)];
    assert UncertainExecution(e) !in s.db.outbox;
    assert Became(e, Uncertain) !in s.log && Became(e, Uncertain) !in Note(s, action);
  }

  lemma NewRowsExecute(s: System, action: Action)
    requires Sound(s) && Enabled(s, action)
    ensures forall e | |s.db.executions| <= e < |Step(s, action).db.executions| ::
      && Step(s, action).db.executions[e].state == Executing
      && !Step(s, action).db.executions[e].writeAttempted
  {
    if action.LeaseAbandoned? || action.LeaseProposal? {
      LeaseWritesLeases(s, action);
    }
  }

  lemma OutboxKept(s: System, action: Action)
    requires Sound(s) && OutboxSound(s) && Enabled(s, action)
    ensures OutboxSound(Step(s, action))
  {
    var s' := Step(s, action);
    LogGrows(s, action);
    RowMoves(s, action);
    OutboxMoves(s, action);
    forall e | 0 <= e < |s'.db.executions|
      ensures NoticeFits(s', e)
    {
      NoticeKept(s, action, e);
    }
    var note := Note(s, action);
    if |note| == 1 && note[0].Became? && note[0].state == Uncertain {
      assert note == [Became(note[0].executionId, Uncertain)] && note[0] in note;
    } else {
      assert forall e: nat :: note != [Became(e, Uncertain)];
    }
  }

  // ----- leases

  predicate MarkFits(s: System, e: nat)
    requires e < |s.db.executions|
  {
    s.db.executions[e].writeAttempted <==> Marked(e) in s.log
  }

  /** A claim's flag says exactly whether the mark was committed when its lease was taken. */
  predicate SnapshotTrue(log: seq<Event>, reconciler: Reconciler) {
    reconciler.claims != [] ==>
      && reconciler.since <= |log|
      && (forall c | c in reconciler.claims :: c.writeAttempted <==> Marked(c.executionId) in log[..reconciler.since])
  }

  ghost predicate LeasesSound(s: System) {
    && (forall e | 0 <= e < |s.db.executions| :: MarkFits(s, e))
    && (forall ev | ev in s.log && ev.Marked? :: ev.executionId < |s.db.executions|)
    && (forall w | 0 <= w < |s.reconcilers| :: SnapshotTrue(s.log, s.reconcilers[w]))
  }

  lemma FinalizeKeepsMarks(s: System, x: nat)
    requires Enabled(s, DoFinalize(x))
    ensures |s.db.executions| == |FinalizeStep(s, x).db.executions|
    ensures forall e | 0 <= e < |s.db.executions| ::
      FinalizeStep(s, x).db.executions[e].writeAttempted == s.db.executions[e].writeAttempted
  {
  }

  lemma ResolveKeepsMarks(s: System, w: nat)
    requires Enabled(s, DoResolve(w))
    ensures |s.db.executions| == |ResolveStep(s, w).db.executions|
    ensures forall e | 0 <= e < |s.db.executions| ::
      ResolveStep(s, w).db.executions[e].writeAttempted == s.db.executions[e].writeAttempted
  {
  }

  lemma SettlingKeepsMarks(s: System, action: Action)
    requires Sound(s) && Enabled(s, action) && (action.DoFinalize? || action.DoResolve?)
    ensures |s.db.executions| == |Step(s, action).db.executions|
    ensures forall e | 0 <= e < |s.db.executions| ::
      Step(s, action).db.executions[e].writeAttempted == s.db.executions[e].writeAttempted
    ensures forall ev | ev in Note(s, action) :: !ev.Marked?
  {
    if action.DoFinalize? { FinalizeKeepsMarks(s, action.x); } else { ResolveKeepsMarks(s, action.w); }
  }

  lemma MarksMove(s: System, action: Action)
    requires Sound(s) && Enabled(s, action)
    ensures |s.db.executions| <= |Step(s, action).db.executions|
    ensures forall e | 0 <= e < |s.db.executions| ::
      Step(s, action).db.executions[e].writeAttempted <==>
        (s.db.executions[e].writeAttempted || Note(s, action) == [Marked(e)])
    ensures forall ev | ev in Note(s, action) && ev.Marked? :: ev.executionId < |s.db.executions|
  {
    var s', note := Step(s, action), Note(s, action);
    if action.Mark? {
      var claim := s.executors[action.x].claim;
      assert note == if MarkWriteAttempted(s.db, claim).Commit? then [Marked(claim.executionId)] else [];
    } else {
      if action.LeaseAbandoned? || action.LeaseProposal? {
        LeaseWritesLeases(s, action);
        assert note == [];
      } else if action.DoFinalize? || action.DoResolve? {
        SettlingKeepsMarks(s, action);
      } else {
        OthersKeepMarks(s, action);
      }
      assert forall e: nat | note == [Marked(e)] :: note[0] in note;
    }
  }

  lemma OthersKeepMarks(s: System, action: Action)
    requires Sound(s) && Enabled(s, action)
    requires !action.Mark? && !action.LeaseAbandoned? && !action.LeaseProposal? &&
      !action.DoFinalize? && !action.DoResolve?
    ensures s.db.executions <= Step(s, action).db.executions
    ensures forall ev | ev in Note(s, action) :: !ev.Marked?
  {
  }

  lemma LeasedClaimsTrue(s: System, rows: seq<nat>)
    requires RowsAgree(s.db) && LeasesSound(s)
    requires forall e | e in rows :: e < |s.db.executions| && s.db.executions[e].proposalId < |s.db.proposals|
    ensures forall c | c in ClaimsOf(s.db, rows) :: c.writeAttempted <==> Marked(c.executionId) in s.log
  {
    var claims := ClaimsOf(s.db, rows);
    forall c | c in claims
      ensures c.writeAttempted <==> Marked(c.executionId) in s.log
    {
      var k :| 0 <= k < |claims| && claims[k] == c;
      assert rows[k] in rows;
      assert MarkFits(s, rows[k]);
    }
  }

  /** What a step may leave a reconciler with: its claims or a rest of them, or a fresh lease. */
  lemma ReconcilerMoves(s: System, action: Action, w: nat)
    requires Enabled(s, action) && w < |Step(s, action).reconcilers|
    ensures
      var after := Step(s, action).reconcilers[w];
      || after.claims == []
      || (w < |s.reconcilers| && after.since == s.reconcilers[w].since
            && (after.claims == s.reconcilers[w].claims
                || (s.reconcilers[w].claims != [] && after.claims == s.reconcilers[w].claims[1..])))
      || (after.since == |s.log| && exists rows: seq<nat> ::
            && (forall e | e in rows :: e < |s.db.executions| && s.db.executions[e].proposalId < |s.db.proposals|)
            && after.claims == ClaimsOf(s.db, rows))
  {
    if action.LeaseProposal? && action.w == w {
      var found := FindExecution(s.db.executions, action.pid);
      if found.Some? && s.db.executions[found.value].state == Uncertain && action.pid < |s.db.proposals| {
        assert Step(s, action).reconcilers[w].claims == ClaimsOf(s.db, [found.value]);
      }
    }
  }

  lemma SnapshotsKept(s: System, action: Action, w: nat)
    requires Sound(s) && LeasesSound(s) && Enabled(s, action) && w < |Step(s, action).reconcilers|
    requires Step(s, action).reconcilers[w].claims != []
    ensures SnapshotTrue(Step(s, action).log, Step(s, action).reconcilers[w])
  {
    var s' := Step(s, action);
    LogGrows(s, action);
    ReconcilerMoves(s, action, w);
    var after := s'.reconcilers[w];
    if after.since == |s.log| && exists rows: seq<nat> ::
         && (forall e | e in rows :: e < |s.db.executions| && s.db.executions[e].proposalId < |s.db.proposals|)
         && after.claims == ClaimsOf(s.db, rows) {
      var rows: seq<nat> :|
         && (forall e | e in rows :: e < |s.db.executions| && s.db.executions[e].proposalId < |s.db.proposals|)
         && after.claims == ClaimsOf(s.db, rows);
      LeasedClaimsTrue(s, rows);
      assert s'.log[..|s.log|] == s.log;
    } else {
      assert SnapshotTrue(s.log, s.reconcilers[w]);
      assert s'.log[..after.since] == s.log[..after.since];
    }
  }

  lemma LeasesKept(s: System, action: Action)
    requires Sound(s) && LeasesSound(s) && Enabled(s, action)
    ensures LeasesSound(Step(s, action))
  {
    var s' := Step(s, action);
    LogGrows(s, action);
    MarksMove(s, action);
    NewRowsExecute(s, action);
    forall e | 0 <= e < |s'.db.executions|
      ensures MarkFits(s', e)
    {
      if e < |s.db.executions| {
        assert MarkFits(s, e);
        if Marked(e) in Note(s, action) { assert Note(s, action) == [Marked(e)]; }
      }
    }
    forall w | 0 <= w < |s'.reconcilers|
      ensures SnapshotTrue(s'.log, s'.reconcilers[w])
    {
      if s'.reconcilers[w].claims != [] { SnapshotsKept(s, action, w); }
    }
  }
}
