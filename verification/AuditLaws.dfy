/** The audit chain, told field by field. */
module AuditLaws {
  import opened Wrappers
  import opened AuditChain

  /** Event `i` is numbered from 1, links to nothing if it is the first and else to the stored hash of
      the event before it, and holds the hash of its own number, link and details. */
  predicate Fits(hash: Hash, events: seq<AuditEvent>, i: nat)
    requires i < |events|
  {
    var event := events[i];
    && event.sequenceNumber == i + 1
    && event.previousHash == (if i == 0 then None else Some(events[i - 1].eventHash))
    && event.eventHash == hash(Payload(i + 1, event.previousHash, event.details))
  }

  lemma FitsExactly(hash: Hash, events: seq<AuditEvent>, i: nat)
    requires i < |events|
    ensures Linked(hash, events, i) <==> Fits(hash, events, i)
  {
    assert i > 0 ==> events[..i][i - 1] == events[i - 1];
  }

  /** A chain is sound if and only if all its events fit. */
  lemma SoundExactly(hash: Hash, events: seq<AuditEvent>)
    ensures SoundChain(hash, events) <==> forall i | 0 <= i < |events| :: Fits(hash, events, i)
  {
    forall i | 0 <= i < |events|
      ensures Linked(hash, events, i) <==> Fits(hash, events, i)
    {
      FitsExactly(hash, events, i);
    }
  }

  /** On a sound chain an append is numbered one on, linked to the last event, and stores the details
      and the time it was given; it is inserted exactly if its hash is new. */
  lemma AppendsExactly(hash: Hash, events: seq<AuditEvent>, details: Details, now: int)
    requires SoundChain(hash, events)
    ensures
      var event, n := NextEvent(hash, events, details, now), |events|;
      var previous := if n == 0 then None else Some(events[n - 1].eventHash);
      && event == AuditEvent(n + 1, previous, hash(Payload(n + 1, previous, details)), now, details)
      && (Insertable(events, event) <==> forall i | 0 <= i < n :: events[i].eventHash != event.eventHash)
  {
    LatestOfSound(hash, events);
    forall i | 0 <= i < |events|
      ensures events[i].sequenceNumber == i + 1
    {
      assert Linked(hash, events, i);
    }
  }

  // ----- what the appenders wrote

  /** Some appender read the chain with these details at this time. */
  ghost predicate Supplied(actions: seq<Action>, event: AuditEvent) {
    exists j, a: nat :: 0 <= j < |actions| && actions[j] == ReadLatest(a, event.details, event.createdAt)
  }

  ghost predicate AllSupplied(actions: seq<Action>, s: Appenders) {
    && (forall i | 0 <= i < |s.events| :: Supplied(actions, s.events[i]))
    && (forall a | 0 <= a < |s.pending| && s.pending[a].Some? :: Supplied(actions, s.pending[a].value))
  }

  lemma SuppliedLonger(actions: seq<Action>, s: Appenders)
    requires actions != [] && AllSupplied(actions[..|actions| - 1], s)
    ensures AllSupplied(actions, s)
  {
    var n := |actions| - 1;
    forall event | Supplied(actions[..n], event)
      ensures Supplied(actions, event)
    {
      var j, a: nat :| 0 <= j < n && actions[..n][j] == ReadLatest(a, event.details, event.createdAt);
      assert actions[j] == ReadLatest(a, event.details, event.createdAt);
    }
  }

  lemma SuppliedStep(hash: Hash, actions: seq<Action>, s: Appenders)
    requires actions != [] && AllSupplied(actions, s)
    ensures AllSupplied(actions, Apply(hash, s, actions[|actions| - 1]))
  {
    var last := |actions| - 1;
    if actions[last].ReadLatest? {
      var event := NextEvent(hash, s.events, actions[last].details, actions[last].now);
      assert actions[last] == ReadLatest(actions[last].a, event.details, event.createdAt);
    }
  }

  lemma {:induction false} RunSupplied(hash: Hash, actions: seq<Action>)
    ensures AllSupplied(actions, Run(hash, NO_APPENDERS, actions))
  {
    if actions == [] {
    } else {
      var before := Run(hash, NO_APPENDERS, actions[..|actions| - 1]);
      RunSupplied(hash, actions[..|actions| - 1]);
      SuppliedLonger(actions, before);
      SuppliedStep(hash, actions, before);
    }
  }

  /** Whatever the interleaving, the events are numbered from 1 without a gap, one for each commit,
      and each holds the details and the time some appender read the chain with. */
  lemma RunsExactly(hash: Hash, actions: seq<Action>, i: nat)
    requires i < |Run(hash, NO_APPENDERS, actions).events|
    ensures
      var s := Run(hash, NO_APPENDERS, actions);
      |s.events| == s.commits && Fits(hash, s.events, i) && Supplied(actions, s.events[i])
  {
    AppendersLeaveASoundChain(hash, actions);
    SoundExactly(hash, Run(hash, NO_APPENDERS, actions).events);
    RunSupplied(hash, actions);
  }

  /** Sound chains that end in one hash are the same rows, creation times apart. */
  lemma OnlyTimesDiffer(hash: Hash, a: seq<AuditEvent>, b: seq<AuditEvent>, i: nat)
    requires Injective(hash) && SoundChain(hash, a) && SoundChain(hash, b) && LastHash(a) == LastHash(b)
    requires i < |a|
    ensures |a| == |b| && a[i] == b[i].(createdAt := a[i].createdAt)
  {
    SameLastHashSameChain(hash, a, b);
  }

  /** Exported event `i` has its number, the hash of the event before it or nothing at the start, and
      the hash of all its fields but the hash itself. */
  predicate ExportFits(hash: ExportHash, events: seq<Exported>, i: nat)
    requires i < |events|
  {
    var event := events[i];
    && "sequence_number" in event && event["sequence_number"] == Number(i + 1)
    && (i == 0 ==> "previous_hash" in event ==> event["previous_hash"] == Null)
    && (i > 0 ==>
          && "previous_hash" in event && "event_hash" in events[i - 1]
          && event["previous_hash"] == events[i - 1]["event_hash"])
    && "event_hash" in event
    && event["event_hash"] == Text(hash(map key | key in event && key != "event_hash" :: event[key]))
  }

  lemma MaterialExactly(event: Exported)
    ensures Material(event) == map key | key in event && key != "event_hash" :: event[key]
  {
  }

  lemma ExportFitsExactly(hash: ExportHash, events: seq<Exported>, i: nat)
    requires i < |events| && (i > 0 ==> ExportLinked(hash, events, i - 1) || ExportFits(hash, events, i - 1))
    ensures ExportLinked(hash, events, i) <==> ExportFits(hash, events, i)
  {
    MaterialExactly(events[i]);
  }

  lemma {:induction false} ExportsFit(hash: ExportHash, events: seq<Exported>, n: nat)
    requires n <= |events|
    ensures (forall i | 0 <= i < n :: ExportLinked(hash, events, i)) <==>
            (forall i | 0 <= i < n :: ExportFits(hash, events, i))
  {
    if n == 0 {
    } else {
      ExportsFit(hash, events, n - 1);
      if n == 1 || ExportLinked(hash, events, n - 2) || ExportFits(hash, events, n - 2) {
        ExportFitsExactly(hash, events, n - 1);
      }
    }
  }

  /** An exported chain is sound if and only if all its events fit. */
  lemma ExportExactly(hash: ExportHash, events: seq<Exported>)
    ensures SoundExport(hash, events) <==> forall i | 0 <= i < |events| :: ExportFits(hash, events, i)
  {
    ExportsFit(hash, events, |events|);
  }
}
