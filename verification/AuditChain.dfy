/** The append-only audit chain of one environment: appending transactions that collide on a
    unique sequence number, and the two verifiers that walk a chain. The hash is any function of
    the hashed fields; where it matters, an injective one. */
module AuditChain {
  import opened Wrappers

  /** What the caller of `append` supplies; structured values by their canonical text. */
  datatype Details = Details(
    actionType: string,
    actorType: string,
    actorId: string,
    subjectIds: seq<string>,
    correlationId: string,
    priorState: Option<string>,
    newState: Option<string>,
    safeMetadata: string)

  datatype Payload = Payload(sequence: int, previousHash: Option<string>, details: Details)

  /** A stored row; the creation time is not part of the hashed payload. */
  datatype AuditEvent = AuditEvent(
    sequenceNumber: int,
    previousHash: Option<string>,
    eventHash: string,
    createdAt: int,
    details: Details)

  type Hash = Payload -> string

  function PayloadOf(event: AuditEvent): Payload {
    Payload(event.sequenceNumber, event.previousHash, event.details)
  }

  function LastHash(events: seq<AuditEvent>): Option<string> {
    if events == [] then None else Some(events[|events| - 1].eventHash)
  }

  /** The event at index `i` of a sound chain: numbered i + 1, linked to its predecessor, and
      carrying the hash of its own payload. */
  predicate Linked(hash: Hash, events: seq<AuditEvent>, i: nat)
    requires i < |events|
  {
    && events[i].sequenceNumber == i + 1
    && events[i].previousHash == LastHash(events[..i])
    && events[i].eventHash == hash(PayloadOf(events[i]))
  }

  ghost predicate SoundChain(hash: Hash, events: seq<AuditEvent>) {
    forall i | 0 <= i < |events| :: Linked(hash, events, i)
  }

  // ----- append

  function Latest(events: seq<AuditEvent>): (latest: Option<AuditEvent>)
    ensures latest.None? <==> events == []
    ensures latest.Some? ==> latest.value in events
    ensures forall event | event in events :: latest.Some? && event.sequenceNumber <= latest.value.sequenceNumber
  {
    if events == [] then None
    else
      var last := events[|events| - 1];
      var before := Latest(events[..|events| - 1]);
      if before.Some? && last.sequenceNumber <= before.value.sequenceNumber then before else Some(last)
  }

  /** The row `append` builds on what it reads. */
  function NextEvent(hash: Hash, events: seq<AuditEvent>, details: Details, now: int): AuditEvent {
    var latest := Latest(events);
    var sequence := if latest.None? then 1 else latest.value.sequenceNumber + 1;
    var previous := if latest.None? then None else Some(latest.value.eventHash);
    AuditEvent(sequence, previous, hash(Payload(sequence, previous, details)), now, details)
  }

  /** The table is unique in the sequence number and in the hash. */
  predicate Insertable(events: seq<AuditEvent>, event: AuditEvent) {
    forall i | 0 <= i < |events| ::
      events[i].sequenceNumber != event.sequenceNumber && events[i].eventHash != event.eventHash
  }

  class AuditRepository {
    const hash: Hash
    var events: seq<AuditEvent>

    constructor (hash: Hash)
      ensures this.hash == hash && events == []
    {
      this.hash := hash;
      events := [];
    }

    /** One appending transaction, alone: it raises only if the hash is already in the table. */
    method Append(details: Details, now: int) returns (inserted: Option<AuditEvent>)
      modifies this`events
      ensures
        var event := NextEvent(hash, old(events), details, now);
        if Insertable(old(events), event) then events == old(events) + [event] && inserted == Some(event)
        else events == old(events) && inserted == None
    {
      var latest := Latest(events);
      var sequence, previous := 1, None;
      if latest.Some? {
        sequence, previous := latest.value.sequenceNumber + 1, Some(latest.value.eventHash);
      }
      var event := AuditEvent(sequence, previous, hash(Payload(sequence, previous, details)), now, details);
      if !Insertable(events, event) {
        return None;
      }
      events := events + [event];
      return Some(event);
    }

    /** Accepts exactly the sound chains; `ordered` is the table ordered by sequence number. */
    method VerifyChain(ordered: seq<AuditEvent>) returns (ok: bool)
      ensures ok <==> SoundChain(hash, ordered)
    {
      var previous := None;
      for i := 0 to |ordered|
        invariant previous == LastHash(ordered[..i])
        invariant forall k | 0 <= k < i :: Linked(hash, ordered, k)
      {
        var event := ordered[i];
        if event.sequenceNumber != i + 1 || event.previousHash != previous {
          assert !Linked(hash, ordered, i);
          return false;
        }
        if hash(Payload(event.sequenceNumber, event.previousHash, event.details)) != event.eventHash {
          assert !Linked(hash, ordered, i);
          return false;
        }
        previous := Some(event.eventHash);
        assert ordered[..i + 1][|ordered[..i + 1]| - 1] == event;
      }
      return true;
    }
  }

  // ----- concurrent appenders

  /** Any number of appending transactions: each has read nothing yet, or holds the row it built. */
  datatype Appenders = Appenders(events: seq<AuditEvent>, pending: seq<Option<AuditEvent>>, commits: nat)

  datatype Action =
    | Start
    | ReadLatest(a: nat, details: Details, now: int)
    | CommitInsert(a: nat)
    | Abandon(a: nat)

  function Apply(hash: Hash, s: Appenders, action: Action): Appenders {
    match action
    case Start => s.(pending := s.pending + [None])
    case ReadLatest(a, details, now) =>
      if a < |s.pending| then s.(pending := s.pending[a := Some(NextEvent(hash, s.events, details, now))]) else s
    case CommitInsert(a) =>
      if a >= |s.pending| || s.pending[a].None? then s
      else if Insertable(s.events, s.pending[a].value) then
        Appenders(s.events + [s.pending[a].value], s.pending[a := None], s.commits + 1)
      else s.(pending := s.pending[a := None])
    case Abandon(a) => if a < |s.pending| then s.(pending := s.pending[a := None]) else s
  }

  function Run(hash: Hash, s: Appenders, actions: seq<Action>): Appenders {
    if actions == [] then s
    else Apply(hash, Run(hash, s, actions[..|actions| - 1]), actions[|actions| - 1])
  }

  const NO_APPENDERS: Appenders := Appenders([], [], 0)

  lemma LatestOfSound(hash: Hash, events: seq<AuditEvent>)
    requires SoundChain(hash, events)
    ensures events != [] ==> Latest(events) == Some(events[|events| - 1])
  {
    if events != [] {
      var last := |events| - 1;
      assert Linked(hash, events, last);
      var before := Latest(events[..last]);
      if before.Some? {
        var i :| 0 <= i < last && events[..last][i] == before.value;
        assert Linked(hash, events, i);
      }
    }
  }

  lemma NextIsLinked(hash: Hash, events: seq<AuditEvent>, details: Details, now: int)
    requires SoundChain(hash, events)
    ensures NextEvent(hash, events, details, now).sequenceNumber == |events| + 1
    ensures SoundChain(hash, events + [NextEvent(hash, events, details, now)])
  {
    LatestOfSound(hash, events);
    var event := NextEvent(hash, events, details, now);
    var longer := events + [event];
    if events != [] { assert Linked(hash, events, |events| - 1); }
    assert longer[..|events|] == events;
    forall i | 0 <= i < |longer|
      ensures Linked(hash, longer, i)
    {
      if i < |events| {
        assert Linked(hash, events, i) && longer[..i] == events[..i];
      }
    }
  }

  /** A pending row was built on some prefix of the table as it is now. */
  ghost predicate BuiltOn(hash: Hash, events: seq<AuditEvent>, event: AuditEvent, k: nat) {
    && k <= |events|
    && exists details: Details, now: int :: event == NextEvent(hash, events[..k], details, now)
  }

  ghost predicate Orderly(hash: Hash, s: Appenders) {
    && SoundChain(hash, s.events)
    && s.commits == |s.events|
    && (forall a | 0 <= a < |s.pending| && s.pending[a].Some? ::
          exists k: nat :: BuiltOn(hash, s.events, s.pending[a].value, k))
  }

  lemma PrefixIsSound(hash: Hash, events: seq<AuditEvent>, k: nat)
    requires SoundChain(hash, events) && k <= |events|
    ensures SoundChain(hash, events[..k])
  {
    forall i | 0 <= i < k
      ensures Linked(hash, events[..k], i)
    {
      assert Linked(hash, events, i) && events[..k][..i] == events[..i];
    }
  }

  /** A row built on a proper prefix collides on the sequence number; one built on the whole table
      extends the chain. */
  lemma InsertKeepsSound(hash: Hash, events: seq<AuditEvent>, event: AuditEvent, k: nat)
    requires SoundChain(hash, events) && BuiltOn(hash, events, event, k)
    ensures Insertable(events, event) ==> k == |events| && SoundChain(hash, events + [event])
  {
    var details: Details, now: int :| event == NextEvent(hash, events[..k], details, now);
    PrefixIsSound(hash, events, k);
    NextIsLinked(hash, events[..k], details, now);
    if k < |events| {
      assert Linked(hash, events, k);
    } else {
      assert events[..k] == events;
    }
  }

  lemma BuiltOnLonger(hash: Hash, events: seq<AuditEvent>, more: AuditEvent, event: AuditEvent, k: nat)
    requires BuiltOn(hash, events, event, k)
    ensures BuiltOn(hash, events + [more], event, k)
  {
    assert (events + [more])[..k] == events[..k];
  }

  lemma StepIsOrderly(hash: Hash, s: Appenders, action: Action)
    requires Orderly(hash, s)
    ensures Orderly(hash, Apply(hash, s, action)) && s.events <= Apply(hash, s, action).events
  {
    var s' := Apply(hash, s, action);
    if action.CommitInsert? && s'.events != s.events {
      var event := s.pending[action.a].value;
      var k: nat :| BuiltOn(hash, s.events, event, k);
      InsertKeepsSound(hash, s.events, event, k);
      forall a | 0 <= a < |s'.pending| && s'.pending[a].Some?
        ensures exists k: nat :: BuiltOn(hash, s'.events, s'.pending[a].value, k)
      {
        var j: nat :| BuiltOn(hash, s.events, s.pending[a].value, j);
        BuiltOnLonger(hash, s.events, event, s.pending[a].value, j);
      }
    } else {
      forall a | 0 <= a < |s'.pending| && s'.pending[a].Some?
        ensures exists k: nat :: BuiltOn(hash, s'.events, s'.pending[a].value, k)
      {
        if action.ReadLatest? && action.a == a {
          assert s.events[..|s.events|] == s.events;
          assert BuiltOn(hash, s.events, s'.pending[a].value, |s.events|);
        }
      }
    }
  }

  /** Any interleaving of any number of appenders leaves a chain numbered 1..n, one event for each
      transaction that committed, which the verifier accepts. */
  lemma {:induction false} AppendersLeaveASoundChain(hash: Hash, actions: seq<Action>)
    ensures Orderly(hash, Run(hash, NO_APPENDERS, actions))
    ensures SoundChain(hash, Run(hash, NO_APPENDERS, actions).events)
    ensures |Run(hash, NO_APPENDERS, actions).events| == Run(hash, NO_APPENDERS, actions).commits
  {
    if actions == [] {
    } else {
      var shorter := actions[..|actions| - 1];
      AppendersLeaveASoundChain(hash, shorter);
      StepIsOrderly(hash, Run(hash, NO_APPENDERS, shorter), actions[|actions| - 1]);
    }
  }

  /** Under an injective hash, a commit succeeds exactly when nobody committed since its read. */
  lemma CommitsExactlyIfUndisturbed(hash: Hash, s: Appenders, a: nat, k: nat)
    requires Orderly(hash, s) && Injective(hash)
    requires a < |s.pending| && s.pending[a].Some? && BuiltOn(hash, s.events, s.pending[a].value, k)
    ensures Apply(hash, s, CommitInsert(a)).commits == s.commits + 1 <==> k == |s.events|
  {
    var event := s.pending[a].value;
    var details: Details, now: int :| event == NextEvent(hash, s.events[..k], details, now);
    InsertKeepsSound(hash, s.events, event, k);
    PrefixIsSound(hash, s.events, k);
    NextIsLinked(hash, s.events[..k], details, now);
    if k == |s.events| {
      forall i | 0 <= i < |s.events|
        ensures s.events[i].sequenceNumber != event.sequenceNumber && s.events[i].eventHash != event.eventHash
      {
        assert Linked(hash, s.events, i);
        assert PayloadOf(s.events[i]) != PayloadOf(event);
      }
    }
  }

  // ----- tamper evidence

  ghost predicate Injective(hash: Hash) {
    forall p: Payload, q: Payload :: hash(p) == hash(q) ==> p == q
  }

  /** Two sound chains end in the same hash exactly when they agree on every hashed field of every
      event; only what is not hashed, the creation time, can differ. */
  lemma {:induction false} SameLastHashSameChain(hash: Hash, a: seq<AuditEvent>, b: seq<AuditEvent>)
    requires Injective(hash) && SoundChain(hash, a) && SoundChain(hash, b)
    ensures LastHash(a) == LastHash(b) <==>
              |a| == |b| && forall i | 0 <= i < |a| ::
                PayloadOf(a[i]) == PayloadOf(b[i]) && a[i].eventHash == b[i].eventHash
  {
    if a != [] && b != [] && LastHash(a) == LastHash(b) {
      var m, n := |a| - 1, |b| - 1;
      assert Linked(hash, a, m) && Linked(hash, b, n);
      assert PayloadOf(a[m]) == PayloadOf(b[n]);
      PrefixIsSound(hash, a, m);
      PrefixIsSound(hash, b, n);
      SameLastHashSameChain(hash, a[..m], b[..n]);
      forall i | 0 <= i < |a|
        ensures PayloadOf(a[i]) == PayloadOf(b[i]) && a[i].eventHash == b[i].eventHash
      {
        if i < m { assert a[..m][i] == a[i] && b[..n][i] == b[i]; }
      }
    }
  }

  /** What a chain does not protect: a creation time can be rewritten anywhere. */
  lemma CreationTimeIsUnprotected(hash: Hash, events: seq<AuditEvent>, i: nat, createdAt: int)
    requires SoundChain(hash, events) && i < |events|
    ensures SoundChain(hash, events[i := events[i].(createdAt := createdAt)])
  {
    var changed := events[i := events[i].(createdAt := createdAt)];
    forall k | 0 <= k < |changed|
      ensures Linked(hash, changed, k)
    {
      assert Linked(hash, events, k);
      assert LastHash(changed[..k]) == LastHash(events[..k]);
    }
  }

  // ----- the verifier over exported events

  datatype Json = Null | Number(value: int) | Text(text: string) | Structure(canonical: string)

  type Exported = map<string, Json>

  function Get(event: Exported, key: string): Json {
    if key in event then event[key] else Null
  }

  function Material(event: Exported): Exported {
    event - {"event_hash"}
  }

  type ExportHash = Exported -> string

  predicate ExportLinked(hash: ExportHash, events: seq<Exported>, i: nat)
    requires i < |events|
  {
    && Get(events[i], "sequence_number") == Number(i + 1)
    && Get(events[i], "previous_hash") == (if i == 0 then Null else Get(events[i - 1], "event_hash"))
    && Get(events[i], "event_hash") == Text(hash(Material(events[i])))
  }

  ghost predicate SoundExport(hash: ExportHash, events: seq<Exported>) {
    forall i | 0 <= i < |events| :: ExportLinked(hash, events, i)
  }

  method VerifyHashChain(hash: ExportHash, events: seq<Exported>) returns (ok: bool)
    ensures ok <==> SoundExport(hash, events)
  {
    var previous := Null;
    for i := 0 to |events|
      invariant previous == if i == 0 then Null else Get(events[i - 1], "event_hash")
      invariant forall k | 0 <= k < i :: ExportLinked(hash, events, k)
    {
      var event := events[i];
      if Get(event, "sequence_number") != Number(i + 1) {
        assert !ExportLinked(hash, events, i);
        return false;
      }
      if Get(event, "previous_hash") != previous {
        assert !ExportLinked(hash, events, i);
        return false;
      }
      var supplied := Get(event, "event_hash");
      if supplied != Text(hash(Material(event))) {
        assert !ExportLinked(hash, events, i);
        return false;
      }
      previous := supplied;
    }
    return true;
  }

  ghost predicate ExportInjective(hash: ExportHash) {
    forall p: Exported, q: Exported :: hash(p) == hash(q) ==> p == q
  }

  /** Two accepted exports that end in the same hash are the same events, key for key. */
  lemma {:induction false} SameLastHashSameExport(hash: ExportHash, a: seq<Exported>, b: seq<Exported>)
    requires ExportInjective(hash) && SoundExport(hash, a) && SoundExport(hash, b)
    requires a != [] && b != []
    requires Get(a[|a| - 1], "event_hash") == Get(b[|b| - 1], "event_hash")
    ensures a == b
  {
    var m, n := |a| - 1, |b| - 1;
    assert ExportLinked(hash, a, m) && ExportLinked(hash, b, n);
    SameMaterialSameEvent(a[m], b[n]);
    if m == 0 {
    } else {
      ExportPrefix(hash, a);
      ExportPrefix(hash, b);
      SameLastHashSameExport(hash, a[..m], b[..n]);
    }
    assert a == a[..m] + [a[m]] && b == b[..n] + [b[n]];
  }

  lemma SameMaterialSameEvent(a: Exported, b: Exported)
    requires Material(a) == Material(b)
    requires Get(a, "event_hash") == Get(b, "event_hash") != Null
    ensures a == b
    ensures Get(a, "sequence_number") == Get(b, "sequence_number")
    ensures Get(a, "previous_hash") == Get(b, "previous_hash")
  {
    assert forall key :: key in a && key != "event_hash" ==> key in Material(a) && Material(a)[key] == a[key];
    assert forall key :: key in b && key != "event_hash" ==> key in Material(b) && Material(b)[key] == b[key];
    assert a.Keys == b.Keys by {
      assert "event_hash" in a && "event_hash" in b;
      assert a.Keys == Material(a).Keys + {"event_hash"};
      assert b.Keys == Material(b).Keys + {"event_hash"};
    }
  }

  lemma ExportPrefix(hash: ExportHash, events: seq<Exported>)
    requires SoundExport(hash, events) && events != []
    ensures SoundExport(hash, events[..|events| - 1])
  {
    var shorter := events[..|events| - 1];
    forall i | 0 <= i < |shorter|
      ensures ExportLinked(hash, shorter, i)
    {
      assert ExportLinked(hash, events, i);
    }
  }
}
