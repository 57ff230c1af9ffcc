/** When the progress recorder refuses an observation: exactly, in terms of what was observed. */
module TaskRejection {
  import opened Wrappers
  import opened Sequences
  import opened TaskProgress
  import opened TaskRecorder

  // ----- one event of each type

  /** The order in which the differ derives its events. */
  function Rank(eventType: EventType): nat {
    match eventType
    case RemainingEstimateChanged => 0
    case WorkLogged => 1
    case TimeSpentCorrected => 1
    case StatusChanged => 2
    case OriginalEstimateChanged => 3
    case DueDateChanged => 4
    case PriorityChanged => 5
    case AssigneeChanged => 6
    case BlockerAdded => 7
    case BlockerRemoved => 8
    case TaskCompleted => 9
  }

  /** Ranks rise strictly, within the bounds. */
  ghost predicate Ranked(events: seq<ProgressEvent>, low: nat, high: nat) {
    && (forall i | 0 <= i < |events| :: low <= Rank(events[i].eventType) < high)
    && (forall i, j | 0 <= i < j < |events| :: Rank(events[i].eventType) < Rank(events[j].eventType))
  }

  lemma RankedAppend(a: seq<ProgressEvent>, b: seq<ProgressEvent>, low: nat, middle: nat, high: nat)
    requires Ranked(a, low, middle) && Ranked(b, middle, high) && low <= middle <= high
    ensures Ranked(a + b, low, high)
  {
  }

  lemma EffortIsRanked(previous: Observation, current: Observation)
    ensures Ranked(EffortEvents(previous, current), 0, 3)
  {
  }

  lemma PlanIsRanked(previous: Observation, current: Observation)
    ensures Ranked(PlanEvents(previous, current), 3, 7)
  {
  }

  lemma BlockersAreRanked(previous: Observation, current: Observation)
    ensures Ranked(BlockerEvents(previous, current), 7, 9)
  {
  }

  lemma CompletionIsRanked(completed: string -> bool, previous: Observation, current: Observation)
    ensures Ranked(CompletionEvents(completed, previous, current), 9, 10)
  {
  }

  /** The differ derives its events in a fixed order of types, each type at most once. */
  lemma DerivedInOrder(completed: string -> bool, previous: Observation, current: Observation)
    ensures Ranked(Derive(completed, previous, current), 0, 10)
  {
    EffortIsRanked(previous, current);
    PlanIsRanked(previous, current);
    BlockersAreRanked(previous, current);
    CompletionIsRanked(completed, previous, current);
    FourRanked(EffortEvents(previous, current), PlanEvents(previous, current), BlockerEvents(previous, current),
               CompletionEvents(completed, previous, current));
  }

  lemma FourRanked(a: seq<ProgressEvent>, b: seq<ProgressEvent>, c: seq<ProgressEvent>, d: seq<ProgressEvent>)
    requires Ranked(a, 0, 3) && Ranked(b, 3, 7) && Ranked(c, 7, 9) && Ranked(d, 9, 10)
    ensures Ranked(a + b + c + d, 0, 10)
  {
    RankedAppend(a, b, 0, 3, 7);
    RankedAppend(a + b, c, 0, 7, 9);
    RankedAppend(a + b + c, d, 0, 9, 10);
  }

  // ----- the stored fingerprints are those of what they stand for

  function MaterialOf(entry: LoggedEvent): EventMaterial {
    EventMaterial(entry.key.1, entry.event.eventType, entry.occurredAt, entry.event.oldValue, entry.event.newValue)
  }

  ghost predicate SnapshotsHashed(settings: Settings, snapshots: seq<Snapshot>) {
    forall i | 0 <= i < |snapshots| :: snapshots[i] == SnapshotOf(settings, snapshots[i].observation)
  }

  ghost predicate EventsHashed(settings: Settings, events: seq<LoggedEvent>) {
    forall i | 0 <= i < |events| :: events[i].fingerprint == settings.eventFingerprint(MaterialOf(events[i]))
  }

  ghost predicate Hashed(settings: Settings, t: Tables) {
    SnapshotsHashed(settings, t.snapshots) && EventsHashed(settings, t.events)
  }

  lemma {:induction false} EntriesMatch(settings: Settings, o: Observation, events: seq<ProgressEvent>)
    ensures |LogEntries(settings, o, events)| == |events|
    ensures forall i | 0 <= i < |events| :: LogEntries(settings, o, events)[i] == LogEntry(settings, o, events[i])
  {
    if events == [] {
    } else {
      EntriesMatch(settings, o, events[..|events| - 1]);
    }
  }

  lemma LogKeepsHashed(settings: Settings, o: Observation, events: seq<LoggedEvent>, derived: seq<ProgressEvent>)
    requires EventsHashed(settings, events)
    ensures EventsHashed(settings, events + LogEntries(settings, o, derived))
  {
    EntriesMatch(settings, o, derived);
  }

  lemma SnapshotKeepsHashed(settings: Settings, snapshots: seq<Snapshot>, o: Observation)
    requires SnapshotsHashed(settings, snapshots)
    ensures SnapshotsHashed(settings, snapshots + [SnapshotOf(settings, o)])
  {
  }

  lemma RecordKeepsHashed(settings: Settings, t: Tables, o: Observation)
    requires Hashed(settings, t) && RecordOne(settings, t, o).Some?
    ensures Hashed(settings, RecordOne(settings, t, o).value)
  {
    LogKeepsHashed(settings, o, t.events, Derived(settings, t, o));
    SnapshotKeepsHashed(settings, t.snapshots, o);
  }

  lemma {:induction false} BatchKeepsHashed(settings: Settings, t: Tables, batch: seq<Observation>)
    requires Hashed(settings, t)
    ensures RecordAll(settings, t, batch).Some? ==> Hashed(settings, RecordAll(settings, t, batch).value)
  {
    if batch == [] {
    } else if RecordAll(settings, t, batch).Some? {
      var shorter := batch[..|batch| - 1];
      BatchKeepsHashed(settings, t, shorter);
      RecordKeepsHashed(settings, RecordAll(settings, t, shorter).value, batch[|batch| - 1]);
    }
  }

  lemma {:induction false} BatchesKeepHashed(settings: Settings, batches: seq<seq<Observation>>)
    ensures Hashed(settings, RunBatches(settings, batches))
  {
    if batches == [] {
    } else {
      var before := batches[..|batches| - 1];
      BatchesKeepHashed(settings, before);
      BatchKeepsHashed(settings, RunBatches(settings, before), batches[|batches| - 1]);
    }
  }

  // ----- the exact condition

  /** The issue was recorded in this very state in the week of the observation. */
  predicate HadState(t: Tables, o: Observation) {
    exists i :: 0 <= i < |t.snapshots|
      && KeyOf(t.snapshots[i].observation) == KeyOf(o)
      && WeekStart(t.snapshots[i].observation.localDate) == WeekStart(o.localDate)
      && CanonicalState(t.snapshots[i].observation) == CanonicalState(o)
  }

  /** The issue is in this state, last seen in that week. */
  predicate HasState(t: Tables, o: Observation) {
    && KeyOf(o) in t.currents
    && t.currents[KeyOf(o)].week == WeekStart(o.localDate)
    && CanonicalState(t.currents[KeyOf(o)].state) == CanonicalState(o)
  }

  /** The same change, at the same moment, of an issue with the same key, in whichever project. */
  predicate SameChange(entry: LoggedEvent, o: Observation, event: ProgressEvent) {
    MaterialOf(entry) == EventMaterial(o.issueKey, event.eventType, o.jiraUpdatedAt, event.oldValue, event.newValue)
  }

  function MaterialFor(o: Observation, event: ProgressEvent): EventMaterial {
    EventMaterial(o.issueKey, event.eventType, o.jiraUpdatedAt, event.oldValue, event.newValue)
  }

  predicate EventsTell(settings: Settings, a: EventMaterial, b: EventMaterial) {
    settings.eventFingerprint(a) == settings.eventFingerprint(b) ==> a == b
  }

  /** The fingerprints tell the observed state from the issue's recorded ones, and the derived
      changes from the logged ones and from each other. */
  ghost predicate NoCollision(settings: Settings, t: Tables, o: Observation) {
    var derived := Derived(settings, t, o);
    && (forall i | 0 <= i < |t.snapshots| && KeyOf(t.snapshots[i].observation) == KeyOf(o) ::
          Tells(settings, CanonicalState(t.snapshots[i].observation), CanonicalState(o)))
    && (KeyOf(o) in t.currents ==>
          Tells(settings, CanonicalState(t.currents[KeyOf(o)].state), CanonicalState(o)))
    && (forall i, j | 0 <= i < |t.events| && 0 <= j < |derived| ::
          EventsTell(settings, MaterialOf(t.events[i]), MaterialFor(o, derived[j])))
    && (forall i, j | 0 <= i < j < |derived| ::
          EventsTell(settings, MaterialFor(o, derived[i]), MaterialFor(o, derived[j])))
  }

  lemma TakenIsHad(settings: Settings, t: Tables, o: Observation)
    requires Hashed(settings, t) && NoCollision(settings, t, o)
    ensures SnapshotTaken(t.snapshots, KeyOf(o), WeekStart(o.localDate), settings.fingerprint(CanonicalState(o)))
        <==> HadState(t, o)
  {
    assert forall i | 0 <= i < |t.snapshots| :: t.snapshots[i] == SnapshotOf(settings, t.snapshots[i].observation);
  }

  lemma NeededUnlessCurrent(settings: Settings, t: Tables, o: Observation)
    requires Faithful(settings, t, KeyOf(o)) && NoCollision(settings, t, o)
    ensures NeedsSnapshot(settings, t, o) <==> !HasState(t, o)
  {
  }

  lemma InsertableUnlessLogged(settings: Settings, t: Tables, o: Observation)
    requires Hashed(settings, t) && NoCollision(settings, t, o)
    ensures EventsInsertable(t.events, LogEntries(settings, o, Derived(settings, t, o))) <==>
      forall i, j | 0 <= i < |t.events| && 0 <= j < |Derived(settings, t, o)| ::
        !SameChange(t.events[i], o, Derived(settings, t, o)[j])
  {
    var derived := Derived(settings, t, o);
    var entries := LogEntries(settings, o, derived);
    EntriesMatch(settings, o, derived);
    if KeyOf(o) in t.currents {
      DerivedInOrder(settings.completed, t.currents[KeyOf(o)].state, o);
    }
    forall i, j | 0 <= i < |t.events| && 0 <= j < |entries|
      ensures t.events[i].fingerprint == entries[j].fingerprint <==> SameChange(t.events[i], o, derived[j])
    {
      assert EventsTell(settings, MaterialOf(t.events[i]), MaterialFor(o, derived[j]));
    }
    forall i, j | 0 <= i < j < |entries|
      ensures entries[i].fingerprint != entries[j].fingerprint
    {
      assert Rank(derived[i].eventType) < Rank(derived[j].eventType);
      assert EventsTell(settings, MaterialFor(o, derived[i]), MaterialFor(o, derived[j]));
    }
  }

  /** The issue had the observed state in this week and has left it. */
  predicate Returns(t: Tables, o: Observation) {
    HadState(t, o) && !HasState(t, o)
  }

  /** A change derived from the observation is in the log already. */
  predicate Relogs(settings: Settings, t: Tables, o: Observation) {
    exists i, j :: 0 <= i < |t.events| && 0 <= j < |Derived(settings, t, o)|
      && SameChange(t.events[i], o, Derived(settings, t, o)[j])
  }

  /** What the tables of any run are like. */
  ghost predicate Kept(settings: Settings, t: Tables) {
    AllFaithful(settings, t) && Hashed(settings, t)
  }

  /** An observation whose fingerprints collide with none concerned is refused if and only if it
      shows a return within the week or repeats a logged change. */
  lemma RefusedExactlyWhen(settings: Settings, t: Tables, o: Observation)
    requires Kept(settings, t) && NoCollision(settings, t, o)
    ensures RecordOne(settings, t, o).None? <==> Returns(t, o) || Relogs(settings, t, o)
  {
    assert Faithful(settings, t, KeyOf(o));
    TakenIsHad(settings, t, o);
    NeededUnlessCurrent(settings, t, o);
    InsertableUnlessLogged(settings, t, o);
  }

  lemma KeptSoFar(settings: Settings, t: Tables, batch: seq<Observation>)
    requires Kept(settings, t) && RecordAll(settings, t, batch).Some?
    ensures Kept(settings, RecordAll(settings, t, batch).value)
  {
    BatchKeepsFaithful(settings, t, batch);
    BatchKeepsHashed(settings, t, batch);
  }

  /** Observation `i` of a batch is reached and shows a return or repeats a change. */
  predicate LostAt(settings: Settings, t: Tables, batch: seq<Observation>, i: nat) {
    && i < |batch|
    && RecordAll(settings, t, batch[..i]).Some?
    && var before := RecordAll(settings, t, batch[..i]).value;
       Returns(before, batch[i]) || Relogs(settings, before, batch[i])
  }

  /** None of the observations a batch gets to meets a collision. */
  ghost predicate NoCollisions(settings: Settings, t: Tables, batch: seq<Observation>) {
    forall i | 0 <= i < |batch| && RecordAll(settings, t, batch[..i]).Some? ::
      NoCollision(settings, RecordAll(settings, t, batch[..i]).value, batch[i])
  }

  lemma PrefixesOfPrefix(settings: Settings, t: Tables, batch: seq<Observation>, n: nat)
    requires n <= |batch|
    ensures NoCollisions(settings, t, batch) ==> NoCollisions(settings, t, batch[..n])
    ensures forall i: nat | i < n :: LostAt(settings, t, batch[..n], i) <==> LostAt(settings, t, batch, i)
  {
    forall i: nat | i < n
      ensures batch[..n][..i] == batch[..i]
    {
    }
  }

  lemma LostAtLast(settings: Settings, t: Tables, batch: seq<Observation>, n: nat)
    requires Kept(settings, t) && NoCollisions(settings, t, batch) && |batch| == n + 1
    requires RecordAll(settings, t, batch[..n]).Some?
    ensures LostAt(settings, t, batch, n) <==> RecordAll(settings, t, batch).None?
  {
    KeptSoFar(settings, t, batch[..n]);
    RefusedExactlyWhen(settings, RecordAll(settings, t, batch[..n]).value, batch[n]);
  }

  lemma LostNowhere(settings: Settings, t: Tables, batch: seq<Observation>, i: nat)
    requires Kept(settings, t) && NoCollisions(settings, t, batch) && RecordAll(settings, t, batch).Some?
    ensures !LostAt(settings, t, batch, i)
  {
    if i < |batch| {
      var before := PrefixRecorded(settings, t, batch, i);
      var after := PrefixRecorded(settings, t, batch, i + 1);
      var _ := LastRecorded(settings, t, batch[..i + 1]);
      TakeTake(batch, i);
      KeptSoFar(settings, t, batch[..i]);
      RefusedExactlyWhen(settings, before, batch[i]);
    }
  }

  lemma {:induction false} LostSomewhere(settings: Settings, t: Tables, batch: seq<Observation>) returns (i: nat)
    requires Kept(settings, t) && NoCollisions(settings, t, batch) && RecordAll(settings, t, batch).None?
    ensures LostAt(settings, t, batch, i)
    decreases |batch|
  {
    var n := |batch| - 1;
    PrefixesOfPrefix(settings, t, batch, n);
    if RecordAll(settings, t, batch[..n]).Some? {
      LostAtLast(settings, t, batch, n);
      i := n;
    } else {
      i := LostSomewhere(settings, t, batch[..n]);
    }
  }

  lemma RunsKeep(settings: Settings, batches: seq<seq<Observation>>)
    ensures Kept(settings, RunBatches(settings, batches))
  {
    EventLogReplaysCurrentState(settings, batches);
    BatchesKeepHashed(settings, batches);
  }

  /** After any sequence of batches, an observation is recorded if and only if its issue has not
      left the observed state within the week and none of the derived changes is logged yet. */
  lemma RecordedExactlyWhen(settings: Settings, batches: seq<seq<Observation>>, o: Observation)
    requires NoCollision(settings, RunBatches(settings, batches), o)
    ensures
      var t := RunBatches(settings, batches);
      RecordOne(settings, t, o).Some? <==> !Returns(t, o) && !Relogs(settings, t, o)
  {
    RunsKeep(settings, batches);
    RefusedExactlyWhen(settings, RunBatches(settings, batches), o);
  }

  /** After any sequence of batches, the next one is lost as a whole if and only if one of its
      observations is reached that shows a return to a state left within the week, or repeats a
      logged change of an issue with the same key. */
  lemma BatchLostExactlyWhen(settings: Settings, batches: seq<seq<Observation>>, batch: seq<Observation>)
    requires NoCollisions(settings, RunBatches(settings, batches), batch)
    ensures
      var t := RunBatches(settings, batches);
      RecordAll(settings, t, batch).None? <==> exists i :: LostAt(settings, t, batch, i)
  {
    RunsKeep(settings, batches);
    var t := RunBatches(settings, batches);
    if RecordAll(settings, t, batch).None? {
      var i := LostSomewhere(settings, t, batch);
    } else {
      forall i: nat
        ensures !LostAt(settings, t, batch, i)
      {
        LostNowhere(settings, t, batch, i);
      }
    }
  }

  // ----- a batch that is lost

  /** Nothing is finished, and every fingerprint is the status it is about. */
  function ByStatus(): Settings {
    Settings((status: string) => false,
             (state: Canonical) => state.status,
             (material: EventMaterial) => if material.newValue.Text? then material.newValue.text else "")
  }

  /** An issue seen in a status, and in nothing else, on the first Monday. */
  function Sighting(key: string, status: string, at: int): Observation {
    Observation("P", key, None, at, 1, at, status, None, None, None, None, None, false, [])
  }

  lemma OnlyTheStatus(key: string, before: string, after: string, i: int, j: int)
    requires before != after
    ensures Derive(ByStatus().completed, Sighting(key, before, i), Sighting(key, after, j))
         == [ProgressEvent(StatusChanged, Text(before), Text(after), true)]
  {
  }

  /** The tables once a status was recorded and then another one. */
  function Moved(key: string, before: string, after: string): Tables {
    Recorded(ByStatus(), Recorded(ByStatus(), EMPTY, Sighting(key, before, 0)), Sighting(key, after, 1))
  }

  /** One issue, last seen in a status, with the snapshots so far. */
  ghost predicate Seen(t: Tables, snapshots: seq<Snapshot>, key: string, status: string, at: int) {
    && t.snapshots == snapshots
    && t.currents.Keys == {("P", key)}
    && t.currents[("P", key)].state == Sighting(key, status, at)
    && t.currents[("P", key)].fingerprint == status
  }

  lemma FirstStatus(key: string, status: string)
    ensures
      var t := Recorded(ByStatus(), EMPTY, Sighting(key, status, 0));
      && !Refused(ByStatus(), EMPTY, Sighting(key, status, 0))
      && Seen(t, [SnapshotOf(ByStatus(), Sighting(key, status, 0))], key, status, 0) && t.events == []
  {
    assert LogEntries(ByStatus(), Sighting(key, status, 0), []) == [];
  }

  lemma SecondAccepted(t: Tables, key: string, before: string, after: string)
    requires before != after && t.events == []
    requires Seen(t, [SnapshotOf(ByStatus(), Sighting(key, before, 0))], key, before, 0)
    ensures NeedsSnapshot(ByStatus(), t, Sighting(key, after, 1)) && !Refused(ByStatus(), t, Sighting(key, after, 1))
    ensures Derived(ByStatus(), t, Sighting(key, after, 1))
         == [ProgressEvent(StatusChanged, Text(before), Text(after), true)]
  {
    OnlyTheStatus(key, before, after, 0, 1);
  }

  lemma SecondSeen(t: Tables, key: string, before: string, after: string)
    requires before != after && t.events == []
    requires Seen(t, [SnapshotOf(ByStatus(), Sighting(key, before, 0))], key, before, 0)
    ensures
      var a, b := Sighting(key, before, 0), Sighting(key, after, 1);
      Seen(Recorded(ByStatus(), t, b), [SnapshotOf(ByStatus(), a), SnapshotOf(ByStatus(), b)], key, after, 1)
  {
    SecondAccepted(t, key, before, after);
  }

  lemma SecondLogged(t: Tables, key: string, before: string, after: string)
    requires before != after && t.events == []
    requires Seen(t, [SnapshotOf(ByStatus(), Sighting(key, before, 0))], key, before, 0)
    ensures
      var events := Recorded(ByStatus(), t, Sighting(key, after, 1)).events;
      |events| == 1 && events[0].event.newValue == Text(after)
  {
    SecondAccepted(t, key, before, after);
    EntriesMatch(ByStatus(), Sighting(key, after, 1), [ProgressEvent(StatusChanged, Text(before), Text(after), true)]);
  }

  lemma SecondStatus(key: string, before: string, after: string)
    requires before != after
    ensures
      var a, b, t := Sighting(key, before, 0), Sighting(key, after, 1), Moved(key, before, after);
      && Seen(t, [SnapshotOf(ByStatus(), a), SnapshotOf(ByStatus(), b)], key, after, 1)
      && |t.events| == 1 && t.events[0].event.newValue == Text(after)
  {
    FirstStatus(key, before);
    var first := Recorded(ByStatus(), EMPTY, Sighting(key, before, 0));
    SecondSeen(first, key, before, after);
    SecondLogged(first, key, before, after);
  }

  lemma NextBatch(settings: Settings, batches: seq<seq<Observation>>, batch: seq<Observation>)
    ensures RunBatches(settings, batches + [batch]) == CommitBatch(settings, RunBatches(settings, batches), batch)
  {
    assert (batches + [batch])[..|batches|] == batches;
  }

  lemma OneRecorded(settings: Settings, t: Tables, o: Observation)
    requires !Refused(settings, t, o)
    ensures CommitBatch(settings, t, [o]) == Recorded(settings, t, o)
  {
    var one := [o];
    assert one[..|one| - 1] == [] && one[|one| - 1] == o;
    assert RecordAll(settings, t, one) == RecordOne(settings, t, o);
  }

  lemma BothRecorded(key: string, before: string, after: string) returns (batches: seq<seq<Observation>>)
    requires before != after
    ensures RunBatches(ByStatus(), batches) == Moved(key, before, after)
  {
    FirstStatus(key, before);
    SecondAccepted(Recorded(ByStatus(), EMPTY, Sighting(key, before, 0)), key, before, after);
    var a, b := Sighting(key, before, 0), Sighting(key, after, 1);
    batches := [];
    NextBatch(ByStatus(), batches, [a]);
    OneRecorded(ByStatus(), EMPTY, a);
    batches := batches + [[a]];
    NextBatch(ByStatus(), batches, [b]);
    OneRecorded(ByStatus(), RunBatches(ByStatus(), batches), b);
    batches := batches + [[b]];
  }

  lemma ReturnRefused(t: Tables, key: string, before: string, after: string)
    requires before != after && ("P", key) in t.currents && t.currents[("P", key)].fingerprint == after
    requires t.snapshots != [] && t.snapshots[0] == SnapshotOf(ByStatus(), Sighting(key, before, 0))
    ensures Refused(ByStatus(), t, Sighting(key, before, 2))
  {
    assert KeyOf(Sighting(key, before, 2)) == ("P", key);
  }

  lemma ReturnCollidesWithNothing(key: string, before: string, after: string)
    requires before != after
    ensures NoCollision(ByStatus(), Moved(key, before, after), Sighting(key, before, 2))
  {
    SecondStatus(key, before, after);
    OnlyTheStatus(key, after, before, 1, 2);
  }

  lemma OtherRecorded(t: Tables, key: string, status: string, other: string, o: Observation)
    requires Seen(t, t.snapshots, key, status, 1) && other != key && KeyOf(o) == ("P", other)
    requires forall i | 0 <= i < |t.snapshots| :: t.snapshots[i].key == ("P", key)
    ensures !Refused(ByStatus(), t, o) && KeyOf(o) !in t.currents
    ensures ("P", key) in Recorded(ByStatus(), t, o).currents
    ensures Recorded(ByStatus(), t, o).currents[("P", key)].fingerprint == status
    ensures t.snapshots <= Recorded(ByStatus(), t, o).snapshots
  {
    assert LogEntries(ByStatus(), o, []) == [];
  }

  lemma TwoRefused(settings: Settings, t: Tables, a: Observation, b: Observation)
    requires !Refused(settings, t, a) && Refused(settings, Recorded(settings, t, a), b)
    ensures CommitBatch(settings, t, [a, b]) == t
  {
    var one, two := [a], [a, b];
    assert one[..|one| - 1] == [] && two[..|two| - 1] == one;
    assert RecordAll(settings, t, one) == RecordOne(settings, t, a);
    assert RecordAll(settings, t, two) == None;
  }

  /** A batch can be lost for good. An issue moves from one status to another and back within the
      week, one batch a sighting: the sighting of the return is refused although no fingerprints
      collide, and takes with it the sighting of another issue, seen for the first time, that alone
      would have been recorded. */
  lemma ReturningLosesItsBatch(key: string, before: string, after: string, other: string)
    returns (batches: seq<seq<Observation>>)
    requires before != after && other != key
    ensures
      var t := RunBatches(ByStatus(), batches);
      var back, first := Sighting(key, before, 2), Sighting(other, before, 2);
      && NoCollision(ByStatus(), t, back) && RecordOne(ByStatus(), t, back).None?
      && KeyOf(first) !in t.currents && RecordOne(ByStatus(), t, first).Some?
      && RunBatches(ByStatus(), batches + [[first, back]]) == t
  {
    batches := BothRecorded(key, before, after);
    var t := RunBatches(ByStatus(), batches);
    var back, first := Sighting(key, before, 2), Sighting(other, before, 2);
    SecondStatus(key, before, after);
    ReturnCollidesWithNothing(key, before, after);
    OtherRecorded(t, key, after, other, first);
    ReturnRefused(t, key, before, after);
    ReturnRefused(Recorded(ByStatus(), t, first), key, before, after);
    TwoRefused(ByStatus(), t, first, back);
    NextBatch(ByStatus(), batches, [first, back]);
  }
}
