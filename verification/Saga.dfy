/** The reassignment saga as a step system: any number of proposals, executor processes and
    reconciler processes over one database, one Jira and its network. Every atomic step of a
    process is an action; actions interleave in any order, a process may stop between any two of
    its steps, and an action that is not enabled changes nothing. */
module Saga {
  import opened Wrappers
  import opened Proposals
  import opened Transactions
  import opened JiraMutation

  /** One call of `execute`, by the step it takes next. */
  datatype Executor =
    | Checking(proposalId: nat)
    | Inserting(proposalId: nat)
    | Marking(claim: ExecutionClaim)
    | PreReading(claim: ExecutionClaim)
    | Editing(claim: ExecutionClaim)
    | AwaitingEdit(claim: ExecutionClaim)
    | ReadingBack(claim: ExecutionClaim)
    | Finalizing(claim: ExecutionClaim, result: ExecutionResult)
    | Stopped
  {
    predicate Holds() {
      !Checking? && !Inserting? && !Stopped?
    }

    /** Past the transaction that records the write attempt. */
    predicate PastMark() {
      Holds() && !Marking?
    }

    /** The edit has not been sent and may still be. */
    predicate MaySend() {
      Marking? || PreReading? || Editing?
    }
  }

  /** One reconciliation worker with the claims it has leased and not yet resolved; `observed` is
      the reply to the read for the first of them, once made; `since` is the length of the log
      when it took the lease. */
  datatype Reconciler = Reconciler(claims: seq<ReconciliationClaim>, observed: Option<Reply>, since: nat)

  /** An edit on its way to Jira. */
  datatype Edit = Edit(executionId: nat, issue: string, account: string)

  /** What happened, in order; only used to state properties. */
  datatype Event =
    | Decided(decision: Decision, fingerprint: string)
    | Began(executionId: nat, cell: Option<string>)
    | Marked(executionId: nat)
    | Sent(proposalId: nat)
    | Answered(executionId: nat, reply: Reply)
    | Wrote(issue: string, author: Option<nat>)
    | Read(executionId: nat, assignee: Option<string>)
    | Became(executionId: nat, state: ProposalState)

  datatype System = System(
    db: Database,
    jira: map<string, Option<string>>,
    inFlight: multiset<Edit>,
    executors: seq<Executor>,
    reconcilers: seq<Reconciler>,
    log: seq<Event>)

  datatype Action =
    | DoCreate(create: CreateCommand)
    | DoDecide(decide: DecisionCommand, synchronised: bool)
    | NewExecutor(proposalId: nat)
    | CheckExisting(x: nat)
    | Insert(x: nat, correlation: string, now: int)
    | Mark(x: nat)
    | PreRead(x: nat, answered: bool)
    | SendEdit(x: nat)
    | EditReply(x: nat, reply: Reply)
    | ReadBack(x: nat, answered: bool)
    | DoFinalize(x: nat)
    | StopExecutor(x: nat)
    | Land(edit: Edit)
    | Lose(edit: Edit)
    | OthersWrite(issue: string, account: Option<string>)
    | NewReconciler
    | LeaseAbandoned(w: nat, rows: seq<nat>, worker: string, now: int, abandonedAfter: nat, leaseDuration: nat)
    | LeaseProposal(w: nat, pid: nat, worker: string, now: int)
    | Observe(w: nat, answered: bool)
    | DoResolve(w: nat)
    | StopReconciler(w: nat)

  function Cell(jira: map<string, Option<string>>, issue: string): Option<string> {
    if issue in jira then jira[issue] else None
  }

  function ReadReply(jira: map<string, Option<string>>, issue: string, answered: bool): Reply {
    if answered then Response(Cell(jira, issue), "ok") else Raised
  }

  function ReadNote(executionId: nat, reply: Reply): seq<Event> {
    if reply.Response? then [Read(executionId, reply.assignee)] else []
  }

  function ResultFrom(claim: ExecutionClaim, receipt: Receipt): ExecutionResult {
    ExecutionResult(claim.executionId, claim.proposalId, OutcomeState(receipt.outcome), claim.correlation,
                    receipt.observed, receipt.errorCode)
  }

  // ----- decisions

  function CreateStep(s: System, create: CreateCommand): System {
    match Create(s.db, create)
    case Commit(db, _) => s.(db := db)
    case Abort(_) => s
  }

  function DecideStep(s: System, decide: DecisionCommand, synchronised: bool): System {
    match Decide(s.db, decide, synchronised)
    case Commit(db, _) =>
      if |db.decisions| <= |s.db.decisions| then s
      else s.(db := db,
              log := s.log + [Decided(db.decisions[|s.db.decisions|], decide.fingerprint)])
    case Abort(_) => s
  }

  // ----- an executor's steps

  function InsertStep(s: System, x: nat, correlation: string, now: int): System
    requires x < |s.executors| && s.executors[x].Inserting?
  {
    match InsertExecution(s.db, s.executors[x].proposalId, correlation, now)
    case Commit(db, claim) =>
      s.(db := db, executors := s.executors[x := Marking(claim)],
         log := s.log + [Began(claim.executionId, Cell(s.jira, claim.issue))])
    case Abort(_) => s.(executors := s.executors[x := Stopped])
  }

  function MarkStep(s: System, x: nat): System
    requires x < |s.executors| && s.executors[x].Marking?
  {
    var claim := s.executors[x].claim;
    match MarkWriteAttempted(s.db, claim)
    case Commit(db, _) =>
      s.(db := db, executors := s.executors[x := PreReading(claim)], log := s.log + [Marked(claim.executionId)])
    case Abort(_) => s.(executors := s.executors[x := Stopped])
  }

  function PreReadStep(s: System, x: nat, answered: bool): System
    requires x < |s.executors| && s.executors[x].PreReading?
  {
    var claim := s.executors[x].claim;
    var reply := ReadReply(s.jira, claim.issue, answered);
    var next := match AfterPreRead(claim.expected, reply)
      case Some(receipt) => Finalizing(claim, ResultFrom(claim, receipt))
      case None => Editing(claim);
    s.(executors := s.executors[x := next], log := s.log + ReadNote(claim.executionId, reply))
  }

  function EditOf(claim: ExecutionClaim): Edit {
    Edit(claim.executionId, claim.issue, claim.proposed)
  }

  function SendStep(s: System, x: nat): System
    requires x < |s.executors| && s.executors[x].Editing?
  {
    var claim := s.executors[x].claim;
    s.(executors := s.executors[x := AwaitingEdit(claim)],
       inFlight := s.inFlight + multiset{EditOf(claim)},
       log := s.log + [Sent(claim.proposalId)])
  }

  function EditReplyStep(s: System, x: nat, reply: Reply): System
    requires x < |s.executors| && s.executors[x].AwaitingEdit?
  {
    var claim := s.executors[x].claim;
    var next := match AfterEdit(reply)
      case Some(receipt) => Finalizing(claim, ResultFrom(claim, receipt))
      case None => ReadingBack(claim);
    s.(executors := s.executors[x := next], log := s.log + [Answered(claim.executionId, reply)])
  }

  function ReadBackStep(s: System, x: nat, answered: bool): System
    requires x < |s.executors| && s.executors[x].ReadingBack?
  {
    var claim := s.executors[x].claim;
    var reply := ReadReply(s.jira, claim.issue, answered);
    s.(executors := s.executors[x := Finalizing(claim, ResultFrom(claim, AfterReadBack(claim.proposed, reply)))],
       log := s.log + ReadNote(claim.executionId, reply))
  }

  function FinalizeStep(s: System, x: nat): System
    requires x < |s.executors| && s.executors[x].Finalizing?
  {
    var claim, result := s.executors[x].claim, s.executors[x].result;
    var stopped := s.executors[x := Stopped];
    match Finalize(s.db, claim, result)
    case Commit(db, _) =>
      s.(db := db, executors := stopped,
         log := if claim.executionId < |s.db.executions| && s.db.executions[claim.executionId].state == Executing
                then s.log + [Became(claim.executionId, result.state)] else s.log)
    case Abort(_) => s.(executors := stopped)
  }

  // ----- Jira and its network

  function LandStep(s: System, edit: Edit): System {
    s.(inFlight := s.inFlight - multiset{edit},
       jira := s.jira[edit.issue := Some(edit.account)],
       log := s.log + [Wrote(edit.issue, Some(edit.executionId))])
  }

  function OthersWriteStep(s: System, issue: string, account: Option<string>): System {
    s.(jira := s.jira[issue := account], log := s.log + [Wrote(issue, None)])
  }

  // ----- a reconciler's steps

  /** A lease query may return any list of distinct rows that pass its filter: the limit and the
      rows skipped because another transaction holds them can leave out any of them. */
  predicate Leasable(db: Database, rows: seq<nat>, cutoff: int, leaseExpiry: int) {
    && (forall i, j | 0 <= i < j < |rows| :: rows[i] != rows[j])
    && (forall e | e in rows ::
          && e < |db.executions|
          && db.executions[e].proposalId < |db.proposals|
          && Abandoned(db.executions[e], cutoff, leaseExpiry))
  }

  function ClaimsOf(db: Database, rows: seq<nat>): seq<ReconciliationClaim>
    requires forall e | e in rows :: e < |db.executions| && db.executions[e].proposalId < |db.proposals|
  {
    seq(|rows|, i requires 0 <= i < |rows| => assert rows[i] in rows; ClaimOf(db, rows[i]))
  }

  function LeaseStep(s: System, w: nat, rows: seq<nat>, worker: string, now: int): System
    requires w < |s.reconcilers|
    requires forall e | e in rows :: e < |s.db.executions| && s.db.executions[e].proposalId < |s.db.proposals|
  {
    s.(db := LeaseRows(s.db, rows, worker, now),
       reconcilers := s.reconcilers[w := Reconciler(ClaimsOf(s.db, rows), None, |s.log|)])
  }

  function LeaseProposalStep(s: System, w: nat, pid: nat, worker: string, now: int): System
    requires w < |s.reconcilers|
  {
    match FindExecution(s.db.executions, pid)
    case Some(e) =>
      if s.db.executions[e].state == Uncertain && pid < |s.db.proposals|
      then LeaseStep(s, w, [e], worker, now)
      else s
    case None => s
  }

  function ObserveStep(s: System, w: nat, answered: bool): System
    requires w < |s.reconcilers| && s.reconcilers[w].claims != []
  {
    var claim := s.reconcilers[w].claims[0];
    var reply := ReadReply(s.jira, claim.issue, answered);
    s.(reconcilers := s.reconcilers[w := s.reconcilers[w].(observed := Some(reply))],
       log := s.log + ReadNote(claim.executionId, reply))
  }

  datatype Verdict = Verdict(state: ProposalState, observed: Option<string>, errorCode: Option<string>)

  /** The classification at the heart of `_reconcile`. */
  function Classify(claim: ReconciliationClaim, reply: Reply): Verdict {
    var observed := if reply.Response? then reply.assignee else None;
    var readError := if reply.Response? then None else Some("jira_reconciliation_read_failed");
    if observed == Some(claim.proposed) then Verdict(ExecutedVerified, observed, readError)
    else if observed == Some(claim.expected) && !claim.writeAttempted then Verdict(ExecutionFailed, observed, readError)
    else Verdict(Uncertain, observed,
                 if readError.Some? then readError else Some("jira_reconciliation_ambiguous"))
  }

  function EvidenceOf(claim: ReconciliationClaim, verdict: Verdict): Payload {
    Payload(verdict.observed, verdict.errorCode, claim.writeAttempted)
  }

  predicate ResolveMoves(db: Database, claim: ReconciliationClaim, state: ProposalState) {
    && claim.executionId < |db.executions|
    && db.executions[claim.executionId].state != state
    && db.executions[claim.executionId].state in {Executing, Uncertain}
  }

  function ResolveStep(s: System, w: nat): System
    requires w < |s.reconcilers| && s.reconcilers[w].claims != [] && s.reconcilers[w].observed.Some?
  {
    var claim := s.reconcilers[w].claims[0];
    var verdict := Classify(claim, s.reconcilers[w].observed.value);
    match Resolve(s.db, claim, verdict.state, EvidenceOf(claim, verdict))
    case Commit(db, _) =>
      s.(db := db,
         reconcilers := s.reconcilers[w :=
           s.reconcilers[w].(claims := s.reconcilers[w].claims[1..], observed := None)],
         log := if ResolveMoves(s.db, claim, verdict.state)
                then s.log + [Became(claim.executionId, verdict.state)] else s.log)
    case Abort(_) => s.(reconcilers := s.reconcilers[w := Reconciler([], None, 0)])
  }

  // ----- the step system

  predicate At(s: System, x: nat) {
    x < |s.executors|
  }

  predicate Enabled(s: System, action: Action) {
    match action
    case DoCreate(_) => true
    case DoDecide(_, _) => true
    case NewExecutor(_) => true
    case CheckExisting(x) => At(s, x) && s.executors[x].Checking?
    case Insert(x, _, _) => At(s, x) && s.executors[x].Inserting?
    case Mark(x) => At(s, x) && s.executors[x].Marking?
    case PreRead(x, _) => At(s, x) && s.executors[x].PreReading?
    case SendEdit(x) => At(s, x) && s.executors[x].Editing?
    case EditReply(x, _) => At(s, x) && s.executors[x].AwaitingEdit?
    case ReadBack(x, _) => At(s, x) && s.executors[x].ReadingBack?
    case DoFinalize(x) => At(s, x) && s.executors[x].Finalizing?
    case StopExecutor(x) => At(s, x)
    case Land(edit) => edit in s.inFlight
    case Lose(edit) => edit in s.inFlight
    case OthersWrite(_, _) => true
    case NewReconciler => true
    case LeaseAbandoned(w, rows, _, now, after, duration) =>
      w < |s.reconcilers| && s.reconcilers[w].claims == [] && Leasable(s.db, rows, now - after, now - duration)
    case LeaseProposal(w, _, _, _) => w < |s.reconcilers| && s.reconcilers[w].claims == []
    case Observe(w, _) => w < |s.reconcilers| && s.reconcilers[w].claims != [] && s.reconcilers[w].observed.None?
    case DoResolve(w) => w < |s.reconcilers| && s.reconcilers[w].claims != [] && s.reconcilers[w].observed.Some?
    case StopReconciler(w) => w < |s.reconcilers|
  }

  function Step(s: System, action: Action): System
    requires Enabled(s, action)
  {
    match action
    case DoCreate(create) => CreateStep(s, create)
    case DoDecide(decide, synchronised) => DecideStep(s, decide, synchronised)
    case NewExecutor(pid) => s.(executors := s.executors + [Checking(pid)])
    case CheckExisting(x) =>
      var pid := s.executors[x].proposalId;
      s.(executors := s.executors[x := if ReadExisting(s.db, pid).Some? then Stopped else Inserting(pid)])
    case Insert(x, correlation, now) => InsertStep(s, x, correlation, now)
    case Mark(x) => MarkStep(s, x)
    case PreRead(x, answered) => PreReadStep(s, x, answered)
    case SendEdit(x) => SendStep(s, x)
    case EditReply(x, reply) => EditReplyStep(s, x, reply)
    case ReadBack(x, answered) => ReadBackStep(s, x, answered)
    case DoFinalize(x) => FinalizeStep(s, x)
    case StopExecutor(x) => s.(executors := s.executors[x := Stopped])
    case Land(edit) => LandStep(s, edit)
    case Lose(edit) => s.(inFlight := s.inFlight - multiset{edit})
    case OthersWrite(issue, account) => OthersWriteStep(s, issue, account)
    case NewReconciler => s.(reconcilers := s.reconcilers + [Reconciler([], None, 0)])
    case LeaseAbandoned(w, rows, worker, now, _, _) => LeaseStep(s, w, rows, worker, now)
    case LeaseProposal(w, pid, worker, now) => LeaseProposalStep(s, w, pid, worker, now)
    case Observe(w, answered) => ObserveStep(s, w, answered)
    case DoResolve(w) => ResolveStep(s, w)
    case StopReconciler(w) => s.(reconcilers := s.reconcilers[w := Reconciler([], None, 0)])
  }

  function Apply(s: System, action: Action): System {
    if Enabled(s, action) then Step(s, action) else s
  }

  function Run(s: System, actions: seq<Action>): System {
    if actions == [] then s
    else Apply(Run(s, actions[..|actions| - 1]), actions[|actions| - 1])
  }

  /** Nothing has happened yet; Jira may hold anything. */
  predicate Initial(s: System) {
    s.db == EMPTY && s.inFlight == multiset{} && s.executors == [] && s.reconcilers == [] && s.log == []
  }

  lemma {:induction false} RunAppend(s: System, before: seq<Action>, after: seq<Action>)
    ensures Run(s, before + after) == Run(Run(s, before), after)
    decreases |after|
  {
    var all := before + after;
    if after == [] {
      assert all == before;
    } else {
      var last := |after| - 1;
      assert all[..|all| - 1] == before + after[..last];
      RunAppend(s, before, after[..last]);
    }
  }

  /** A run prolonged by one action. */
  lemma Follow(start: System, actions: seq<Action>, s: System, action: Action) returns (more: seq<Action>, s': System)
    requires Run(start, actions) == s
    ensures more == actions + [action] && s' == Apply(s, action) && Run(start, more) == s'
  {
    more, s' := actions + [action], Apply(s, action);
    assert more[..|actions|] == actions;
  }
}
