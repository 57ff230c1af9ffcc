/** Invariants of the step system, sixth part: what Jira holds while nobody else writes the issue. */
module SagaJira {
  import opened Wrappers
  import opened Transactions
  import opened Saga
  import opened SagaRows
  import opened SagaClaims
  import opened SagaEdits
  import opened SagaReads

  /** Execution `e` began with its issue at the expected assignee, and every write to the issue
      since then was its own. */
  ghost predicate Quiet(log: seq<Event>, e: nat, proposal: Proposal) {
    && (forall i | 0 <= i < |log| && log[i].Began? && log[i].executionId == e :: log[i].cell == Some(proposal.expected))
    && (forall i, j | 0 <= i < j < |log| && log[i].Began? && log[i].executionId == e
                      && log[j].Wrote? && log[j].issue == proposal.issue :: log[j].author == Some(e))
  }

  /** How many writes of execution `e` reached its issue. */
  function Applied(log: seq<Event>, e: nat, proposal: Proposal): nat {
    Count(log, Wrote(proposal.issue, Some(e)))
  }

  function EditFor(e: nat, proposal: Proposal): Edit {
    Edit(e, proposal.issue, proposal.proposed)
  }

  function ProposalOf(db: Database, e: nat): Proposal
    requires e < |db.executions| && RowFits(db, db.executions[e])
  {
    db.proposals[db.executions[e].proposalId]
  }

  ghost predicate CellFits(s: System, e: nat, proposal: Proposal) {
    Quiet(s.log, e, proposal) ==>
      && Cell(s.jira, proposal.issue)
           == Some(if Applied(s.log, e, proposal) == 0 then proposal.expected else proposal.proposed)
      && (ReadAfter(s.log, e, Some(proposal.proposed)) ==> Applied(s.log, e, proposal) > 0)
  }

  ghost predicate WritesFit(s: System, e: nat)
    requires e < |s.db.executions| && RowFits(s.db, s.db.executions[e])
  {
    var proposal := ProposalOf(s.db, e);
    Applied(s.log, e, proposal) + s.inFlight[EditFor(e, proposal)] <= Sends(s, s.db.executions[e].proposalId)
  }

  ghost predicate JiraSound(s: System)
    requires RowsAgree(s.db)
  {
    && (forall e | 0 <= e < |s.db.executions| :: WritesFit(s, e) && CellFits(s, e, ProposalOf(s.db, e)))
    && (forall edit | edit in s.inFlight ::
          edit.executionId < |s.db.executions| && edit == EditFor(edit.executionId, ProposalOf(s.db, edit.executionId)))
    && (forall ev | ev in s.log && ev.Wrote? && ev.author.Some? :: ev.author.value < |s.db.executions|)
    && (forall ev | ev in s.log && ev.Began? :: ev.executionId < |s.db.executions|)
  }

  // ----- the log seen from one execution

  lemma QuietBefore(log: seq<Event>, note: seq<Event>, e: nat, proposal: Proposal)
    requires Quiet(log + note, e, proposal)
    ensures Quiet(log, e, proposal)
  {
    var longer := log + note;
    assert forall i | 0 <= i < |log| :: longer[i] == log[i];
  }

  lemma QuietAfterOwn(log: seq<Event>, note: seq<Event>, e: nat, proposal: Proposal)
    requires HasBegun(log, e) && |note| <= 1 && Quiet(log + note, e, proposal)
    requires |note| == 1 && note[0].Wrote? && note[0].issue == proposal.issue
    ensures note[0].author == Some(e)
  {
    var i :| 0 <= i < |log| && log[i].Began? && log[i].executionId == e;
    var longer := log + note;
    assert longer[i] == log[i] && longer[|log|] == note[0];
  }

  lemma ReadAfterBefore(log: seq<Event>, note: seq<Event>, e: nat, assignee: Option<string>)
    requires ReadAfter(log + note, e, assignee) && |note| <= 1 && note != [Read(e, assignee)]
    ensures ReadAfter(log, e, assignee)
  {
  }

  // ----- one step

  /** How the cell moves: only a noted write of the issue changes it, and an execution's own write
      puts its proposed assignee there. */
  lemma CellMoves(s: System, action: Action, issue: string)
    requires Enabled(s, action)
    requires Cell(Step(s, action).jira, issue) != Cell(s.jira, issue)
    ensures |Note(s, action)| == 1 && Note(s, action)[0].Wrote? && Note(s, action)[0].issue == issue
  {
  }

  lemma OwnWriteLands(s: System, action: Action, e: nat, issue: string)
    requires Sound(s) && JiraSound(s) && Enabled(s, action) && e < |s.db.executions|
    requires Note(s, action) == [Wrote(issue, Some(e))]
    ensures action.Land? && action.edit == EditFor(e, ProposalOf(s.db, e))
    ensures Cell(Step(s, action).jira, issue) == Some(ProposalOf(s.db, e).proposed)
  {
    assert Note(s, action)[0].Wrote?;
  }

  lemma ReadsAreFresh(s: System, action: Action, e: nat, assignee: Option<string>)
    requires Sound(s) && Enabled(s, action)
    requires Note(s, action) == [Read(e, assignee)]
    ensures e < |s.db.executions| && assignee == Cell(s.jira, ProposalOf(s.db, e).issue)
    ensures Step(s, action).jira == s.jira
  {
    assert Note(s, action)[0].Read?;
    if action.Observe? {
      assert QueueFits(s.db, s.reconcilers[action.w].claims);
      assert SnapshotFits(s.db, s.reconcilers[action.w].claims[0]);
    }
  }

  lemma CellKept(s: System, action: Action, e: nat)
    requires Sound(s) && ReadsSound(s) && JiraSound(s) && Enabled(s, action) && e < |s.db.executions|
    ensures CellFits(Step(s, action), e, ProposalOf(s.db, e))
  {
    var s', note := Step(s, action), Note(s, action);
    var proposal := ProposalOf(s.db, e);
    LogGrows(s, action);
    if Quiet(s'.log, e, proposal) {
      QuietBefore(s.log, note, e, proposal);
      assert CellFits(s, e, proposal);
      assert RowRead(s, e);
      CountGrows(s.log, note, Wrote(proposal.issue, Some(e)));
      if |note| == 1 && note[0].Wrote? && note[0].issue == proposal.issue {
        QuietAfterOwn(s.log, note, e, proposal);
        assert note == [Wrote(proposal.issue, Some(e))];
        OwnWriteLands(s, action, e, proposal.issue);
      } else {
        if Cell(s'.jira, proposal.issue) != Cell(s.jira, proposal.issue) { CellMoves(s, action, proposal.issue); }
        if ReadAfter(s'.log, e, Some(proposal.proposed)) {
          if note == [Read(e, Some(proposal.proposed))] {
            ReadsAreFresh(s, action, e, Some(proposal.proposed));
          } else {
            ReadAfterBefore(s.log, note, e, Some(proposal.proposed));
          }
        }
      }
    }
  }

  /** Edits in flight: a send adds one, a landing or a loss removes one. */
  lemma FlightMoves(s: System, action: Action, edit: Edit)
    requires Enabled(s, action)
    ensures Step(s, action).inFlight[edit]
         == s.inFlight[edit] + (if action.SendEdit? && EditOf(s.executors[action.x].claim) == edit then 1 else 0)
          - (if (action.Land? || action.Lose?) && action.edit == edit then 1 else 0)
  {
  }

  lemma WritesKept(s: System, action: Action, e: nat)
    requires Sound(s) && JiraSound(s) && Enabled(s, action) && e < |s.db.executions|
    ensures
      var p, proposal := s.db.executions[e].proposalId, ProposalOf(s.db, e);
      Applied(Step(s, action).log, e, proposal) + Step(s, action).inFlight[EditFor(e, proposal)]
        <= Sends(Step(s, action), p)
  {
    var note, p, proposal := Note(s, action), s.db.executions[e].proposalId, ProposalOf(s.db, e);
    LogGrows(s, action);
    assert WritesFit(s, e);
    CountGrows(s.log, note, Wrote(proposal.issue, Some(e)));
    CountGrows(s.log, note, Sent(p));
    FlightMoves(s, action, EditFor(e, proposal));
    if note == [Wrote(proposal.issue, Some(e))] {
      OwnWriteLands(s, action, e, proposal.issue);
    } else if action.SendEdit? {
      assert note == [Sent(s.executors[action.x].claim.proposalId)];
    }
  }

  lemma ProposalStays(s: System, s': System, e: nat)
    requires RowsAgree(s.db) && RowsAgree(s'.db) && Forward(s.db, s'.db) && e < |s.db.executions|
    ensures s'.db.executions[e].proposalId == s.db.executions[e].proposalId
    ensures ProposalOf(s'.db, e).issue == ProposalOf(s.db, e).issue
    ensures ProposalOf(s'.db, e).expected == ProposalOf(s.db, e).expected
    ensures ProposalOf(s'.db, e).proposed == ProposalOf(s.db, e).proposed
  {
  }

  lemma SameProposalSameFit(s: System, e: nat, a: Proposal, b: Proposal)
    requires a.issue == b.issue && a.expected == b.expected && a.proposed == b.proposed
    ensures CellFits(s, e, a) <==> CellFits(s, e, b)
    ensures Applied(s.log, e, a) == Applied(s.log, e, b) && EditFor(e, a) == EditFor(e, b)
  {
  }

  lemma InsertBegins(s: System, action: Action)
    requires Sound(s) && Enabled(s, action) && |s.db.executions| < |Step(s, action).db.executions|
    ensures |Step(s, action).db.executions| == |s.db.executions| + 1
    ensures Step(s, action).db.proposals == s.db.proposals
    ensures Step(s, action).jira == s.jira && Step(s, action).inFlight == s.inFlight
    ensures
      var e, p := |s.db.executions|, Step(s, action).db.executions[|s.db.executions|].proposalId;
      p < |s.db.proposals| && Note(s, action) == [Began(e, Cell(s.jira, s.db.proposals[p].issue))]
  {
    if action.LeaseAbandoned? || action.LeaseProposal? {
      LeaseWritesLeases(s, action);
    }
  }

  /** Nothing of a row that does not exist yet is in the log or on its way. */
  lemma NewRowUnwritten(s: System, proposal: Proposal, cell: Option<string>)
    requires RowsAgree(s.db) && JiraSound(s)
    ensures
      var e := |s.db.executions|;
      && Applied(s.log + [Began(e, cell)], e, proposal) == 0
      && s.inFlight[EditFor(e, proposal)] == 0
  {
  }

  lemma NewRowFits(s: System, s': System)
    requires RowsAgree(s.db) && RowsAgree(s'.db) && JiraSound(s)
    requires |s'.db.executions| == |s.db.executions| + 1
    requires s'.jira == s.jira && s'.inFlight == s.inFlight
    requires
      var e := |s.db.executions|;
      s'.log == s.log + [Began(e, Cell(s.jira, ProposalOf(s'.db, e).issue))]
    ensures
      var e := |s.db.executions|;
      WritesFit(s', e) && CellFits(s', e, ProposalOf(s'.db, e))
  {
    var e := |s.db.executions|;
    var proposal := ProposalOf(s'.db, e);
    var cell := Cell(s.jira, proposal.issue);
    NewRowUnwritten(s, proposal, cell);
    NewRowUnread(s.log, e, cell, proposal);
  }

  lemma NewRowJira(s: System, action: Action, e: nat)
    requires Sound(s) && JiraSound(s) && Enabled(s, action)
    requires |s.db.executions| <= e < |Step(s, action).db.executions|
    requires RowsAgree(Step(s, action).db)
    ensures WritesFit(Step(s, action), e) && CellFits(Step(s, action), e, ProposalOf(Step(s, action).db, e))
  {
    InsertBegins(s, action);
    LogGrows(s, action);
    NewRowFits(s, Step(s, action));
  }

  lemma NewRowUnread(log: seq<Event>, e: nat, cell: Option<string>, proposal: Proposal)
    requires forall ev | ev in log && ev.Began? :: ev.executionId < e
    ensures !ReadAfter(log + [Began(e, cell)], e, Some(proposal.proposed))
    ensures Quiet(log + [Began(e, cell)], e, proposal) ==> cell == Some(proposal.expected)
  {
    var longer := log + [Began(e, cell)];
    assert forall i | 0 <= i < |log| :: longer[i] == log[i] && log[i] in log;
    assert longer[|log|] == Began(e, cell);
  }

  lemma FlightFits(s: System, action: Action, edit: Edit)
    requires Sound(s) && JiraSound(s) && Enabled(s, action) && edit in Step(s, action).inFlight
    ensures edit.executionId < |s.db.executions|
    ensures edit == EditFor(edit.executionId, ProposalOf(s.db, edit.executionId))
  {
    FlightMoves(s, action, edit);
  }

  lemma OnlyInsertsBegin(s: System, action: Action)
    requires Sound(s) && Enabled(s, action)
    ensures forall ev | ev in Note(s, action) && ev.Began? :: ev.executionId < |Step(s, action).db.executions|
  {
    if action.LeaseAbandoned? || action.LeaseProposal? {
      LeaseWritesLeases(s, action);
    }
  }

  lemma OnlyLandingsAreOwn(s: System, action: Action)
    requires Sound(s) && JiraSound(s) && Enabled(s, action)
    ensures forall ev | ev in Note(s, action) && ev.Wrote? && ev.author.Some? :: ev.author.value < |s.db.executions|
  {
    if action.Land? {
      assert action.edit in s.inFlight;
      assert Note(s, action) == [Wrote(action.edit.issue, Some(action.edit.executionId))];
    } else {
      OthersWriteForNobody(s, action);
    }
  }

  lemma OthersWriteForNobody(s: System, action: Action)
    requires Enabled(s, action) && !action.Land?
    ensures forall ev | ev in Note(s, action) && ev.Wrote? :: ev.author == None
  {
  }

  lemma RowJiraKept(s: System, action: Action, e: nat)
    requires Sound(s) && ReadsSound(s) && JiraSound(s) && Enabled(s, action)
    requires RowsAgree(Step(s, action).db) && Forward(s.db, Step(s, action).db) && e < |Step(s, action).db.executions|
    ensures WritesFit(Step(s, action), e) && CellFits(Step(s, action), e, ProposalOf(Step(s, action).db, e))
  {
    var s' := Step(s, action);
    if e < |s.db.executions| {
      ProposalStays(s, s', e);
      WritesKept(s, action, e);
      CellKept(s, action, e);
      SameProposalSameFit(s', e, ProposalOf(s.db, e), ProposalOf(s'.db, e));
    } else {
      NewRowJira(s, action, e);
    }
  }

  lemma FlightKept(s: System, action: Action, edit: Edit)
    requires Sound(s) && JiraSound(s) && Enabled(s, action) && edit in Step(s, action).inFlight
    requires RowsAgree(Step(s, action).db) && Forward(s.db, Step(s, action).db)
    ensures edit.executionId < |Step(s, action).db.executions|
    ensures edit == EditFor(edit.executionId, ProposalOf(Step(s, action).db, edit.executionId))
  {
    FlightFits(s, action, edit);
    ProposalStays(s, Step(s, action), edit.executionId);
  }

  lemma AuthorsKept(s: System, action: Action)
    requires Sound(s) && JiraSound(s) && Enabled(s, action)
    requires |s.db.executions| <= |Step(s, action).db.executions|
    ensures forall ev | ev in Step(s, action).log && ev.Wrote? && ev.author.Some? ::
      ev.author.value < |Step(s, action).db.executions|
    ensures forall ev | ev in Step(s, action).log && ev.Began? :: ev.executionId < |Step(s, action).db.executions|
  {
    LogGrows(s, action);
    OnlyInsertsBegin(s, action);
    OnlyLandingsAreOwn(s, action);
  }

  lemma CellsKept(s: System, action: Action)
    requires Sound(s) && ReadsSound(s) && JiraSound(s) && Enabled(s, action)
    requires RowsAgree(Step(s, action).db) && Forward(s.db, Step(s, action).db)
    ensures forall e | 0 <= e < |Step(s, action).db.executions| ::
      WritesFit(Step(s, action), e) && CellFits(Step(s, action), e, ProposalOf(Step(s, action).db, e))
  {
    forall e | 0 <= e < |Step(s, action).db.executions|
      ensures WritesFit(Step(s, action), e) && CellFits(Step(s, action), e, ProposalOf(Step(s, action).db, e))
    {
      RowJiraKept(s, action, e);
    }
  }

  lemma JiraKept(s: System, action: Action)
    requires Sound(s) && ReadsSound(s) && JiraSound(s) && Enabled(s, action)
    ensures RowsAgree(Step(s, action).db) && JiraSound(Step(s, action))
  {
    RowsKept(s, action);
    AuthorsKept(s, action);
    CellsKept(s, action);
    forall edit | edit in Step(s, action).inFlight
      ensures edit.executionId < |Step(s, action).db.executions| &&
        edit == EditFor(edit.executionId, ProposalOf(Step(s, action).db, edit.executionId))
    {
      FlightKept(s, action, edit);
    }
  }
}
