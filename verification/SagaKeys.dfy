/** The idempotency keys of proposals and decisions: a repeated request finds what the first one
    stored, whatever happened in between. */
module SagaKeys {
  import opened Wrappers
  import opened Proposals
  import opened Transactions
  import opened Saga
  import opened SagaRows
  import opened SagaClaims
  import opened SagaTheorems

  ghost predicate KeysUnique(db: Database) {
    && (forall i, j | 0 <= i < j < |db.proposals| :: db.proposals[i].idempotencyKey != db.proposals[j].idempotencyKey)
    && (forall i, j | 0 <= i < j < |db.decisions| :: db.decisions[i].idempotencyKey != db.decisions[j].idempotencyKey)
  }

  /** Only a create adds a proposal and only a decision adds a decision. */
  lemma TablesStay(s: System, action: Action)
    requires Sound(s) && Enabled(s, action)
    ensures !action.DoCreate? ==> |Step(s, action).db.proposals| == |s.db.proposals|
    ensures !action.DoDecide? ==> Step(s, action).db.decisions == s.db.decisions
  {
    if !Writes(action) {
      OthersKeepDatabase(s, action);
    } else if action.LeaseAbandoned? || action.LeaseProposal? {
      LeaseWritesLeases(s, action);
    }
  }

  lemma CreateKeepsKeys(db: Database, command: CreateCommand)
    requires KeysUnique(db) && Create(db, command).Commit?
    ensures KeysUnique(Create(db, command).database) && Create(db, command).database.decisions == db.decisions
  {
  }

  lemma DecideKeepsKeys(db: Database, command: DecisionCommand, synchronised: bool)
    requires KeysUnique(db) && Decide(db, command, synchronised).Commit?
    ensures KeysUnique(Decide(db, command, synchronised).database)
    ensures db.decisions <= Decide(db, command, synchronised).database.decisions
  {
  }

  lemma KeysKept(s: System, action: Action)
    requires Inv(s) && KeysUnique(s.db) && Enabled(s, action)
    ensures KeysUnique(Step(s, action).db) && s.db.decisions <= Step(s, action).db.decisions
  {
    if action.DoCreate? {
      if Create(s.db, action.create).Commit? { CreateKeepsKeys(s.db, action.create); }
    } else if action.DoDecide? {
      if Decide(s.db, action.decide, action.synchronised).Commit? {
        DecideKeepsKeys(s.db, action.decide, action.synchronised);
      }
    } else {
      TablesStay(s, action);
      InvKept(s, action);
      KeysForward(s.db, Step(s, action).db);
    }
  }

  lemma KeysForward(before: Database, after: Database)
    requires KeysUnique(before) && Forward(before, after)
    requires |after.proposals| == |before.proposals| && after.decisions == before.decisions
    ensures KeysUnique(after)
  {
  }

  lemma {:induction false} RunKeepsKeys(s: System, actions: seq<Action>)
    requires Inv(s) && KeysUnique(s.db)
    ensures KeysUnique(Run(s, actions).db) && s.db.decisions <= Run(s, actions).db.decisions
    decreases |actions|
  {
    if actions == [] {
    } else {
      var shorter, action := actions[..|actions| - 1], actions[|actions| - 1];
      RunKeepsKeys(s, shorter);
      RunKeepsInv(s, shorter);
      var before := Run(s, shorter);
      assert Run(s, actions) == Apply(before, action);
      if Enabled(before, action) { KeysKept(before, action); }
    }
  }

  lemma ReachableKeys(s: System)
    requires Reachable(s)
    ensures Inv(s) && KeysUnique(s.db)
  {
    var start: System, actions: seq<Action> :| Initial(start) && s == Run(start, actions);
    InitialIsSound(start);
    RunKeepsInv(start, actions);
    RunKeepsKeys(start, actions);
  }

  /** A create with a fresh key stores one pending proposal at version 1, and whatever happens
      afterwards, that proposal stays what was asked for: only its state and version move. */
  lemma CreateLasts(s: System, command: CreateCommand, continuation: seq<Action>)
    requires Reachable(s) && ValidCommand(command)
    requires forall p | 0 <= p < |s.db.proposals| :: s.db.proposals[p].idempotencyKey != command.idempotencyKey
    ensures
      var created := Apply(s, DoCreate(command));
      var p, after := |s.db.proposals|, Run(created, continuation).db;
      && |created.db.proposals| == p + 1 && created.db.proposals[..p] == s.db.proposals
      && created.db.proposals[p].state == Pending && created.db.proposals[p].version == 1
      && p < |after.proposals|
      && after.proposals[p].projectKey == command.projectKey && after.proposals[p].issue == command.issue
      && after.proposals[p].expected == command.current && after.proposals[p].proposed == command.proposed
      && after.proposals[p].fingerprint == command.fingerprint
      && after.proposals[p].expiresAt == command.expiresAt
      && after.proposals[p].idempotencyKey == command.idempotencyKey
  {
    ReachableIsSound(s);
    var created := Apply(s, DoCreate(command));
    assert FindProposal(s.db.proposals, command.idempotencyKey).None?;
    assert created.db.proposals == s.db.proposals + [NewProposal(command)];
    InvKept(s, DoCreate(command));
    RunKeepsInv(created, continuation);
    assert ProposalForward(created.db.proposals[|s.db.proposals|],
                           Run(created, continuation).db.proposals[|s.db.proposals|]);
  }

  /** A create with the key of a stored proposal, at any later time, is answered with that proposal
      and stores nothing. */
  lemma CreateIsIdempotent(s: System, p: nat, continuation: seq<Action>, again: CreateCommand)
    requires Reachable(s) && p < |s.db.proposals|
    requires ValidCommand(again) && again.idempotencyKey == s.db.proposals[p].idempotencyKey
    ensures Create(Run(s, continuation).db, again) == Commit(Run(s, continuation).db, p)
  {
    ReachableKeys(s);
    RunKeepsInv(s, continuation);
    RunKeepsKeys(s, continuation);
    var after := Run(s, continuation).db;
    assert ProposalForward(s.db.proposals[p], after.proposals[p]);
    var found := FindProposal(after.proposals, again.idempotencyKey);
    assert found.Some? && found.value == p;
  }

  /** A decision request with the key of a recorded decision, at any later time and whatever else
      it carries, is answered with that decision's proposal and changes nothing. */
  lemma DecideIsIdempotent(s: System, d: nat, continuation: seq<Action>, again: DecisionCommand, synchronised: bool)
    requires Reachable(s) && d < |s.db.decisions| && again.idempotencyKey == s.db.decisions[d].idempotencyKey
    ensures Decide(Run(s, continuation).db, again, synchronised)
         == Commit(Run(s, continuation).db, s.db.decisions[d].proposalId)
  {
    ReachableKeys(s);
    RunKeepsKeys(s, continuation);
    var after := Run(s, continuation).db;
    var found := FindDecision(after.decisions, again.idempotencyKey);
    assert after.decisions[d] == s.db.decisions[d];
    assert found.Some? && found.value == d;
  }
}
