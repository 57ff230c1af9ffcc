/** Runs built step by step: the two services left undisturbed are runs, and so is the race that
    leaves a failed execution with its edit on the way. */
module SagaWitnesses {
  import opened Wrappers
  import opened Sequences
  import opened Proposals
  import opened RiskModels
  import opened Transactions
  import opened JiraMutation
  import opened Saga
  import opened DatabaseStores
  import opened LeaseQueries

  /** What Jira answers the three calls of an undisturbed `execute` whose edit lands before the
      read-back. */
  function SoloReplies(s: System, proposalId: nat, first: bool, edit: Reply, second: bool): seq<Reply>
    requires proposalId < |s.db.proposals|
  {
    var proposal := s.db.proposals[proposalId];
    [ReadReply(s.jira, proposal.issue, first),
     edit,
     ReadReply(s.jira[proposal.issue := Some(proposal.proposed)], proposal.issue, second)]
  }

  /** From the edit on its way to a result. */
  lemma SoloEdits(start: System, before: seq<Action>, s: System, x: nat, edit: Reply, second: bool)
    returns (actions: seq<Action>, t: System)
    requires Run(start, before) == s && x < |s.executors| && s.executors[x].AwaitingEdit?
    requires EditOf(s.executors[x].claim) in s.inFlight
    ensures Run(start, actions) == t && t.db == s.db && x < |t.executors|
    ensures
      var claim := s.executors[x].claim;
      var reply := ReadReply(s.jira[claim.issue := Some(claim.proposed)], claim.issue, second);
      var receipt := if AfterEdit(edit).Some? then AfterEdit(edit).value else AfterReadBack(claim.proposed, reply);
      t.executors[x] == Finalizing(claim, ResultFrom(claim, receipt))
  {
    var claim := s.executors[x].claim;
    actions, t := Follow(start, before, s, EditReply(x, edit));
    if AfterEdit(edit).None? {
      assert t == EditReplyStep(s, x, edit);
      actions, t := Follow(start, actions, t, Land(EditOf(claim)));
      assert t.executors[x] == ReadingBack(claim) && t.jira == s.jira[claim.issue := Some(claim.proposed)];
      actions, t := Follow(start, actions, t, ReadBack(x, second));
    }
  }

  /** The mutation's part of the run: from the pre-read to a result, without touching the rows. */
  lemma SoloMutates(start: System, before: seq<Action>, s: System, x: nat, command: Command,
                    first: bool, edit: Reply, second: bool)
    returns (actions: seq<Action>, t: System)
    requires Run(start, before) == s && x < |s.executors| && s.executors[x].PreReading?
    requires
      var claim := s.executors[x].claim;
      command.issue == claim.issue && command.expected == claim.expected && command.proposed == claim.proposed
    ensures Run(start, actions) == t && t.db == s.db && x < |t.executors|
    ensures
      var claim := s.executors[x].claim;
      var replies := [ReadReply(s.jira, claim.issue, first), edit,
                      ReadReply(s.jira[claim.issue := Some(claim.proposed)], claim.issue, second)];
      t.executors[x] == Finalizing(claim, ResultFrom(claim, Outcome(command, replies).0))
  {
    var claim := s.executors[x].claim;
    actions, t := Follow(start, before, s, PreRead(x, first));
    assert t == PreReadStep(s, x, first);
    if AfterPreRead(claim.expected, ReadReply(s.jira, claim.issue, first)).None? {
      actions, t := Follow(start, actions, t, SendEdit(x));
      assert t.executors[x] == AwaitingEdit(claim) && EditOf(claim) in t.inFlight && t.jira == s.jira;
      actions, t := SoloEdits(start, actions, t, x, edit, second);
    }
  }

  /** The part before it: a new executor wins the insert and marks the row. */
  lemma SoloPrepares(s: System, proposalId: nat, correlation: string, now: int)
    returns (actions: seq<Action>, t: System, claim: ExecutionClaim)
    requires PrepareTx(s.db, proposalId, correlation, now).Commit?
    requires PrepareTx(s.db, proposalId, correlation, now).value.Claimed?
    ensures claim == PrepareTx(s.db, proposalId, correlation, now).value.claim
    ensures Run(s, actions) == t && t.jira == s.jira
    ensures |t.executors| == |s.executors| + 1 && t.executors[|s.executors|] == PreReading(claim)
    ensures MarkWriteAttempted(PrepareTx(s.db, proposalId, correlation, now).database, claim).Commit?
    ensures t.db == MarkWriteAttempted(PrepareTx(s.db, proposalId, correlation, now).database, claim).database
  {
    var x := |s.executors|;
    claim := PrepareTx(s.db, proposalId, correlation, now).value.claim;
    actions, t := Follow(s, [], s, NewExecutor(proposalId));
    actions, t := Follow(s, actions, t, CheckExisting(x));
    assert t.db == s.db && t.jira == s.jira && t.executors[x] == Inserting(proposalId);
    actions, t := Follow(s, actions, t, Insert(x, correlation, now));
    assert t.executors[x] == Marking(claim);
    actions, t := Follow(s, actions, t, Mark(x));
  }

  /** The execution service, run alone, is one run of the step system: some actions of one new
      executor take the rows exactly where the service takes them. */
  lemma SoloExecuteIsARun(s: System, proposalId: nat, correlation: string, now: int,
                          environment: string, allowedProjects: set<string>,
                          first: bool, edit: Reply, second: bool)
    returns (actions: seq<Action>)
    requires proposalId < |s.db.proposals|
    ensures Run(s, actions).db == SoloExecute(s.db, proposalId, correlation, now, environment, allowedProjects,
                                              SoloReplies(s, proposalId, first, edit, second)).db
  {
    var prepared := PrepareTx(s.db, proposalId, correlation, now);
    var replies := SoloReplies(s, proposalId, first, edit, second);
    actions := [];
    if prepared.Commit? && prepared.value.Claimed? {
      var t, claim;
      actions, t, claim := SoloPrepares(s, proposalId, correlation, now);
      SoloMarked(s.db, proposalId, correlation, now, environment, allowedProjects, replies);
      var command := CommandFrom(environment, claim);
      if Allowed(environment, allowedProjects, command) {
        actions, t := SoloMutates(s, actions, t, |s.executors|, command, first, edit, second);
        actions, t := SoloFinalizes(s, actions, t, |s.executors|);
      }
    }
  }

  /** The service's function with its first two transactions behind it. */
  lemma SoloMarked(db: Database, proposalId: nat, correlation: string, now: int,
                   environment: string, allowedProjects: set<string>, replies: seq<Reply>)
    requires PrepareTx(db, proposalId, correlation, now).Commit?
    requires PrepareTx(db, proposalId, correlation, now).value.Claimed?
    requires MarkWriteAttempted(PrepareTx(db, proposalId, correlation, now).database,
                                PrepareTx(db, proposalId, correlation, now).value.claim).Commit?
    ensures
      var claim := PrepareTx(db, proposalId, correlation, now).value.claim;
      var marked := MarkWriteAttempted(PrepareTx(db, proposalId, correlation, now).database, claim).database;
      var command := CommandFrom(environment, claim);
      SoloExecute(db, proposalId, correlation, now, environment, allowedProjects, replies).db ==
        if Allowed(environment, allowedProjects, command)
        then Finalized(marked, claim, ResultFrom(claim, Outcome(command, replies).0))
        else marked
  {
  }

  /** The rows after `finalize`, whether it took effect or raised. */
  function Finalized(db: Database, claim: ExecutionClaim, result: ExecutionResult): Database {
    match Finalize(db, claim, result)
    case Commit(after, _) => after
    case Abort(_) => db
  }

  lemma SoloFinalizes(start: System, before: seq<Action>, s: System, x: nat) returns (actions: seq<Action>, t: System)
    requires Run(start, before) == s && x < |s.executors| && s.executors[x].Finalizing?
    ensures Run(start, actions) == t && t.db == Finalized(s.db, s.executors[x].claim, s.executors[x].result)
  {
    actions, t := Follow(start, before, s, DoFinalize(x));
    assert t == FinalizeStep(s, x);
  }

  // ----- an undisturbed reconciliation

  /** What Jira answers a worker that reads the issue of each claim once; `answered` says which of
      the reads come back. */
  function Readings(jira: map<string, Option<string>>, claims: seq<ReconciliationClaim>, answered: seq<bool>)
    : seq<Reply>
    requires |answered| == |claims|
  {
    seq(|claims|, i requires 0 <= i < |claims| => ReadReply(jira, claims[i].issue, answered[i]))
  }

  lemma ReadingAt(jira: map<string, Option<string>>, claims: seq<ReconciliationClaim>, answered: seq<bool>, k: nat)
    requires |answered| == |claims| && k < |claims|
    ensures ReplyAt(Readings(jira, claims, answered), k) == ReadReply(jira, claims[k].issue, answered[k])
  {
  }

  /** One claim observed and resolved. */
  lemma SoloReconciles(start: System, before: seq<Action>, s: System, w: nat, answered: bool)
    returns (actions: seq<Action>, t: System)
    requires Run(start, before) == s && w < |s.reconcilers|
    requires s.reconcilers[w].claims != [] && s.reconcilers[w].observed == None
    ensures Run(start, actions) == t && t.jira == s.jira && w < |t.reconcilers|
    ensures
      var worker := s.reconcilers[w];
      match ReconcileTx(s.db, worker.claims[0], ReadReply(s.jira, worker.claims[0].issue, answered))
      case Commit(db, _) => t.db == db && t.reconcilers[w] == worker.(claims := worker.claims[1..])
      case Abort(_) => t.db == s.db
  {
    var observed;
    actions, observed := Follow(start, before, s, Observe(w, answered));
    assert observed == ObserveStep(s, w, answered);
    ObservedResolves(s, observed, w, answered);
    actions, t := Follow(start, actions, observed, DoResolve(w));
    assert t == ResolveStep(observed, w);
  }

  lemma ObservedResolves(s: System, observed: System, w: nat, answered: bool)
    requires w < |s.reconcilers| && s.reconcilers[w].claims != [] && s.reconcilers[w].observed == None
    requires observed == ObserveStep(s, w, answered)
    ensures Enabled(observed, DoResolve(w))
    ensures
      var worker, t := s.reconcilers[w], ResolveStep(observed, w);
      && t.jira == s.jira && w < |t.reconcilers|
      && match ReconcileTx(s.db, worker.claims[0], ReadReply(s.jira, worker.claims[0].issue, answered))
         case Commit(db, _) => t.db == db && t.reconcilers[w] == worker.(claims := worker.claims[1..])
         case Abort(_) => t.db == s.db
  {
  }

  lemma {:induction false} ReconciledIsARun(start: System, before: seq<Action>, s: System, w: nat,
                                            answered: seq<bool>, k: nat)
    returns (actions: seq<Action>, t: System)
    requires Run(start, before) == s && w < |s.reconcilers| && s.reconcilers[w].observed == None
    requires k <= |s.reconcilers[w].claims| == |answered|
    ensures Run(start, actions) == t && t.jira == s.jira
    ensures
      var worker := s.reconcilers[w];
      match Reconciled(s.db, worker.claims, Readings(s.jira, worker.claims, answered), k)
      case Returned((db, _)) =>
        t.db == db && w < |t.reconcilers| && t.reconcilers[w] == worker.(claims := worker.claims[k..])
      case Raises((db, _)) => t.db == db
    decreases k
  {
    var worker := s.reconcilers[w];
    if k == 0 {
      actions, t := before, s;
      assert worker.claims[0..] == worker.claims;
    } else {
      actions, t := ReconciledIsARun(start, before, s, w, answered, k - 1);
      var replies := Readings(s.jira, worker.claims, answered);
      var earlier := Reconciled(s.db, worker.claims, replies, k - 1);
      if earlier.Returned? {
        ReconciledNext(s.db, worker.claims, replies, k - 1, earlier.value.0, earlier.value.1);
        DropOne(worker.claims, k - 1);
        ReadingAt(s.jira, worker.claims, answered, k - 1);
        actions, t := SoloReconciles(start, actions, t, w, answered[k - 1]);
      }
    }
  }

  lemma SoloWorks(start: System, before: seq<Action>, s: System, w: nat, answered: seq<bool>)
    returns (actions: seq<Action>)
    requires Run(start, before) == s && w < |s.reconcilers| && s.reconcilers[w].observed == None
    requires |s.reconcilers[w].claims| == |answered|
    ensures
      var claims := s.reconcilers[w].claims;
      Run(start, actions).db == Work(s.db, claims, Readings(s.jira, claims, answered)).0
  {
    var t;
    actions, t := ReconciledIsARun(start, before, s, w, answered, |answered|);
  }

  lemma FreshWorker(s: System)
    ensures Apply(s, NewReconciler) == s.(reconcilers := s.reconcilers + [Reconciler([], None, 0)])
  {
  }

  lemma WorkerLeases(ready: System, w: nat, action: Action)
    requires action.LeaseAbandoned? && action.w == w < |ready.reconcilers| && ready.reconcilers[w].claims == []
    requires Leasable(ready.db, action.rows, action.now - action.abandonedAfter, action.now - action.leaseDuration)
    ensures Apply(ready, action) == LeaseStep(ready, w, action.rows, action.worker, action.now)
  {
  }

  lemma SoloStarts(s: System) returns (actions: seq<Action>, ready: System)
    ensures Run(s, actions) == ready && ready == s.(reconcilers := s.reconcilers + [Reconciler([], None, 0)])
  {
    actions, ready := Follow(s, [], s, NewReconciler);
    FreshWorker(s);
  }

  lemma SoloLeases(s: System, rows: seq<nat>, worker: string, now: int, abandonedAfter: nat, leaseDuration: nat)
    returns (actions: seq<Action>, t: System)
    requires Leasable(s.db, rows, now - abandonedAfter, now - leaseDuration)
    ensures Run(s, actions) == t && t.db == LeaseRows(s.db, rows, worker, now) && t.jira == s.jira
    ensures |t.reconcilers| == |s.reconcilers| + 1
    ensures t.reconcilers[|s.reconcilers|] == Reconciler(ClaimsOf(s.db, rows), None, |s.log|)
  {
    var ready;
    actions, ready := SoloStarts(s);
    var action := LeaseAbandoned(|s.reconcilers|, rows, worker, now, abandonedAfter, leaseDuration);
    WorkerLeases(ready, |s.reconcilers|, action);
    actions, t := Follow(s, actions, ready, action);
  }

  /** The reconciliation service, run alone, is one run of the step system: a new reconciler
      leases what the query returns and settles the claims one by one, and takes the rows exactly
      where the service takes them, also when a resolve raises. */
  lemma RunOnceIsARun(s: System, locked: set<nat>, limit: nat, worker: string, now: int,
                      abandonedAfter: nat, leaseDuration: nat, answered: seq<bool>)
    returns (actions: seq<Action>)
    requires
      var claims := LeaseTx(s.db, now - abandonedAfter, now - leaseDuration, locked, limit, worker, now).1;
      |answered| == |claims|
    ensures
      var (leased, claims) := LeaseTx(s.db, now - abandonedAfter, now - leaseDuration, locked, limit, worker, now);
      Run(s, actions).db == Work(leased, claims, Readings(s.jira, claims, answered)).0
  {
    var rows := LeaseQuery(s.db, now - abandonedAfter, now - leaseDuration, locked, limit);
    var leased := LeaseTx(s.db, now - abandonedAfter, now - leaseDuration, locked, limit, worker, now);
    QueryTakesTheOldest(s.db, now - abandonedAfter, now - leaseDuration, locked, limit);
    var t;
    actions, t := SoloLeases(s, rows, worker, now, abandonedAfter, leaseDuration);
    assert t.db == leased.0 && t.reconcilers[|s.reconcilers|] == Reconciler(leased.1, None, |s.log|);
    actions := SoloWorks(s, actions, t, |s.reconcilers|, answered);
  }

  // ----- the race

  const RACE_CREATE: CreateCommand :=
    CreateCommand("P", "P-1", "ann", "bob", ["bob"], HighConfidence, "f", "key-create", 0, 10)
  const RACE_DECIDE: DecisionCommand := DecisionCommand(0, 1, true, "key-decide", "f", 5)

  predicate RaceRow(s: System, writeAttempted: bool) {
    && |s.db.proposals| == 1 && |s.db.executions| == 1
    && s.db.proposals[0].issue == "P-1" && s.db.proposals[0].expected == "ann"
    && s.db.proposals[0].proposed == "bob" && s.db.proposals[0].state == Executing
    && s.db.executions[0].proposalId == 0 && s.db.executions[0].state == Executing
    && s.db.executions[0].writeAttempted == writeAttempted
    && Cell(s.jira, "P-1") == Some("ann")
    && |s.executors| == 1 && |s.reconcilers| == 1
  }

  const RACE_CLAIM: ExecutionClaim := ExecutionClaim(0, 0, "P", "P-1", "ann", "bob", "c")
  const RACE_SNAPSHOT: ReconciliationClaim := ReconciliationClaim(0, 0, "P-1", "ann", "bob", "c", false)

  lemma RaceApproved(start: System) returns (actions: seq<Action>, t: System)
    requires start == System(EMPTY, map["P-1" := Some("ann")], multiset{}, [], [], [])
    ensures Run(start, actions) == t && t.jira == start.jira && t.inFlight == multiset{}
    ensures t.db.proposals == [NewProposal(RACE_CREATE).(state := Executing, version := 2)]
    ensures t.db.executions == [] && t.executors == [] && t.reconcilers == []
  {
    actions, t := Follow(start, [], start, DoCreate(RACE_CREATE));
    assert t.db.proposals == [NewProposal(RACE_CREATE)];
    actions, t := Follow(start, actions, t, DoDecide(RACE_DECIDE, false));
  }

  lemma RaceBegins(start: System) returns (actions: seq<Action>, t: System)
    requires start == System(EMPTY, map["P-1" := Some("ann")], multiset{}, [], [], [])
    ensures Run(start, actions) == t && RaceRow(t, false)
    ensures t.executors == [Marking(RACE_CLAIM)]
    ensures t.reconcilers[0].claims == [] && t.db.executions[0].createdAt == 0
    ensures t.db.executions[0].leasedAt == None && t.db.executions[0].correlation == "c"
  {
    actions, t := RaceApproved(start);
    actions, t := Follow(start, actions, t, NewExecutor(0));
    actions, t := Follow(start, actions, t, CheckExisting(0));
    assert t.executors == [Inserting(0)];
    actions, t := Follow(start, actions, t, Insert(0, "c", 0));
    actions, t := Follow(start, actions, t, NewReconciler);
  }

  lemma RaceMarks(start: System, before: seq<Action>, s: System) returns (actions: seq<Action>, t: System)
    requires Run(start, before) == s && RaceRow(s, false) && s.executors == [Marking(RACE_CLAIM)]
    ensures Run(start, actions) == t && RaceRow(t, true) && t.executors == [PreReading(RACE_CLAIM)]
    ensures t.reconcilers == s.reconcilers
  {
    actions, t := Follow(start, before, s, Mark(0));
    assert t == MarkStep(s, 0);
  }

  lemma RaceReads(start: System, before: seq<Action>, s: System) returns (actions: seq<Action>, t: System)
    requires Run(start, before) == s && RaceRow(s, true) && s.executors == [PreReading(RACE_CLAIM)]
    requires s.reconcilers[0].claims == [RACE_SNAPSHOT] && s.reconcilers[0].observed == None
    ensures Run(start, actions) == t && RaceRow(t, true) && t.executors == [Editing(RACE_CLAIM)]
    ensures t.reconcilers[0].claims == [RACE_SNAPSHOT]
    ensures t.reconcilers[0].observed == Some(Response(Some("ann"), "ok"))
  {
    actions, t := Follow(start, before, s, PreRead(0, true));
    var read := t;
    assert t == PreReadStep(s, 0, true) && t.executors == [Editing(RACE_CLAIM)];
    actions, t := Follow(start, actions, t, Observe(0, true));
    assert t == ObserveStep(read, 0, true);
  }

  lemma RaceLeases(s: System)
    requires RaceRow(s, false) && s.reconcilers[0].claims == []
    requires s.db.executions[0].createdAt == 0
    requires s.db.executions[0].leasedAt == None && s.db.executions[0].correlation == "c"
    ensures
      var t := Apply(s, LeaseAbandoned(0, [0], "w", 200, 120, 60));
      && RaceRow(t, false) && t.executors == s.executors
      && t.reconcilers[0].claims == [RACE_SNAPSHOT] && t.reconcilers[0].observed == None
  {
  }

  lemma RaceFails(s: System)
    requires RaceRow(s, true) && s.reconcilers[0].claims == [RACE_SNAPSHOT]
    requires s.reconcilers[0].observed == Some(Response(Some("ann"), "ok"))
    ensures
      var t := ResolveStep(s, 0);
      && |t.db.executions| == 1 && t.db.executions[0].state == ExecutionFailed && t.db.executions[0].writeAttempted
      && t.inFlight == s.inFlight && s.log <= t.log
  {
  }

  lemma RaceEnds(start: System, before: seq<Action>, s: System) returns (actions: seq<Action>, t: System)
    requires Run(start, before) == s && RaceRow(s, true) && s.executors == [Editing(RACE_CLAIM)]
    requires s.reconcilers[0].claims == [RACE_SNAPSHOT]
    requires s.reconcilers[0].observed == Some(Response(Some("ann"), "ok"))
    ensures Run(start, actions) == t && Sent(0) in t.log && Edit(0, "P-1", "bob") in t.inFlight
    ensures |t.db.executions| == 1 && t.db.executions[0].state == ExecutionFailed && t.db.executions[0].writeAttempted
  {
    actions, t := Follow(start, before, s, SendEdit(0));
    var sent := t;
    assert sent == SendStep(s, 0);
    RaceFails(sent);
    actions, t := Follow(start, actions, t, DoResolve(0));
    assert t == ResolveStep(sent, 0);
  }

  /** A claim leased before the mark carries a false flag. Its holder reads the expected assignee,
      the executor then sends its edit, the holder records EXECUTION_FAILED, and the edit lands:
      a recorded failure with its edit applied, and Jira at the proposed assignee. */
  lemma FailedButApplied() returns (start: System, actions: seq<Action>)
    ensures Initial(start)
    ensures
      var s := Run(start, actions);
      && |s.db.executions| == 1 && s.db.executions[0].state == ExecutionFailed
      && s.db.executions[0].writeAttempted
      && Sent(0) in s.log && Wrote("P-1", Some(0)) in s.log
      && Cell(s.jira, "P-1") == Some("bob")
  {
    start := System(EMPTY, map["P-1" := Some("ann")], multiset{}, [], [], []);
    var t;
    actions, t := RaceBegins(start);
    RaceLeases(t);
    actions, t := Follow(start, actions, t, LeaseAbandoned(0, [0], "w", 200, 120, 60));
    actions, t := RaceMarks(start, actions, t);
    actions, t := RaceReads(start, actions, t);
    actions, t := RaceEnds(start, actions, t);
    actions, t := Follow(start, actions, t, Land(Edit(0, "P-1", "bob")));
  }
}
