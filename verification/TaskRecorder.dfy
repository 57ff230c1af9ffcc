/** The progress recorder: one transaction for each batch of observations, over the current
    states, the snapshots and the event log, under their unique constraints. */
module TaskRecorder {
  import opened Wrappers
  import opened Sequences
  import opened TaskProgress

  datatype EventMaterial = EventMaterial(
    issueKey: string, eventType: EventType, occurredAt: int, oldValue: Value, newValue: Value)

  /** The hashes and the completion test, as any functions. */
  datatype Settings = Settings(
    completed: string -> bool,
    fingerprint: Canonical -> string,
    eventFingerprint: EventMaterial -> string)

  datatype Snapshot = Snapshot(key: Key, week: int, observation: Observation, fingerprint: string)

  datatype LoggedEvent = LoggedEvent(
    key: Key, week: int, employee: Option<string>, occurredAt: int, event: ProgressEvent, fingerprint: string)

  datatype Current = Current(
    week: int, fingerprint: string, lastObservedAt: int, jiraUpdatedAt: int,
    lastProgressAt: Option<int>, state: Observation)

  datatype Tables = Tables(
    weeks: set<(string, int)>, currents: map<Key, Current>, snapshots: seq<Snapshot>, events: seq<LoggedEvent>)

  const EMPTY: Tables := Tables({}, map[], [], [])

  // ----- work weeks

  function Weekday(date: int): int {
    (date + 6) % 7
  }

  function WeekStart(date: int): (monday: int)
    ensures Weekday(monday) == 0 && monday <= date < monday + 7
  {
    date - Weekday(date)
  }

  // ----- one observation

  function Previous(t: Tables, o: Observation): Option<Current> {
    if KeyOf(o) in t.currents then Some(t.currents[KeyOf(o)]) else None
  }

  function Derived(settings: Settings, t: Tables, o: Observation): seq<ProgressEvent> {
    var previous := Previous(t, o);
    if previous.None? then [] else Derive(settings.completed, previous.value.state, o)
  }

  function LogEntry(settings: Settings, o: Observation, event: ProgressEvent): LoggedEvent {
    LoggedEvent(KeyOf(o), WeekStart(o.localDate), o.assignee, o.jiraUpdatedAt, event,
                settings.eventFingerprint(
                  EventMaterial(o.issueKey, event.eventType, o.jiraUpdatedAt, event.oldValue, event.newValue)))
  }

  function LogEntries(settings: Settings, o: Observation, events: seq<ProgressEvent>): (entries: seq<LoggedEvent>)
    ensures |entries| == |events|
  {
    if events == [] then []
    else LogEntries(settings, o, events[..|events| - 1]) + [LogEntry(settings, o, events[|events| - 1])]
  }

  function SnapshotOf(settings: Settings, o: Observation): Snapshot {
    Snapshot(KeyOf(o), WeekStart(o.localDate), o, settings.fingerprint(CanonicalState(o)))
  }

  predicate NeedsSnapshot(settings: Settings, t: Tables, o: Observation) {
    var previous := Previous(t, o);
    || previous.None?
    || previous.value.fingerprint != settings.fingerprint(CanonicalState(o))
    || previous.value.week != WeekStart(o.localDate)
  }

  /** The unique key of a snapshot: issue, week and fingerprint. */
  predicate SnapshotTaken(snapshots: seq<Snapshot>, key: Key, week: int, fingerprint: string) {
    exists i :: 0 <= i < |snapshots|
      && snapshots[i].key == key && snapshots[i].week == week && snapshots[i].fingerprint == fingerprint
  }

  /** The event fingerprint is unique in the log, new entries included. */
  predicate EventsInsertable(events: seq<LoggedEvent>, more: seq<LoggedEvent>) {
    && (forall i, j | 0 <= i < |events| && 0 <= j < |more| :: events[i].fingerprint != more[j].fingerprint)
    && (forall i, j | 0 <= i < j < |more| :: more[i].fingerprint != more[j].fingerprint)
  }

  function NewCurrent(t: Tables, settings: Settings, o: Observation): Current {
    var previous := Previous(t, o);
    var events := Derived(settings, t, o);
    var lastProgress :=
      if previous.None? || exists event :: event in events && event.structured then Some(o.jiraUpdatedAt)
      else previous.value.lastProgressAt;
    Current(WeekStart(o.localDate), settings.fingerprint(CanonicalState(o)), o.capturedAt, o.jiraUpdatedAt,
            lastProgress, o)
  }

  /** Which unique constraint an observation would violate, if any: that of the snapshots or that
      of the event log. */
  predicate Refused(settings: Settings, t: Tables, o: Observation) {
    var snapshot := SnapshotOf(settings, o);
    || (NeedsSnapshot(settings, t, o)
        && SnapshotTaken(t.snapshots, snapshot.key, snapshot.week, snapshot.fingerprint))
    || !EventsInsertable(t.events, LogEntries(settings, o, Derived(settings, t, o)))
  }

  function Recorded(settings: Settings, t: Tables, o: Observation): Tables {
    Tables(
      t.weeks + {(o.projectKey, WeekStart(o.localDate))},
      t.currents[KeyOf(o) := NewCurrent(t, settings, o)],
      if NeedsSnapshot(settings, t, o) then t.snapshots + [SnapshotOf(settings, o)] else t.snapshots,
      t.events + LogEntries(settings, o, Derived(settings, t, o)))
  }

  /** `None` is a violated unique constraint. */
  function RecordOne(settings: Settings, t: Tables, o: Observation): Option<Tables> {
    if Refused(settings, t, o) then None else Some(Recorded(settings, t, o))
  }

  // ----- batches

  function RecordAll(settings: Settings, t: Tables, batch: seq<Observation>): Option<Tables> {
    if batch == [] then Some(t)
    else
      match RecordAll(settings, t, batch[..|batch| - 1])
      case None => None
      case Some(before) => RecordOne(settings, before, batch[|batch| - 1])
  }

  /** A batch commits as a whole or rolls back as a whole. */
  function CommitBatch(settings: Settings, t: Tables, batch: seq<Observation>): Tables {
    match RecordAll(settings, t, batch)
    case Some(after) => after
    case None => t
  }

  function RunBatches(settings: Settings, batches: seq<seq<Observation>>): Tables {
    if batches == [] then EMPTY
    else CommitBatch(settings, RunBatches(settings, batches[..|batches| - 1]), batches[|batches| - 1])
  }

  datatype Counts = Counts(observed: nat, snapshotsCreated: nat, eventsCreated: nat)

  class TaskProgressRepository {
    const settings: Settings
    var weeks: set<(string, int)>
    var currents: map<Key, Current>
    var snapshots: seq<Snapshot>
    var events: seq<LoggedEvent>

    function View(): Tables
      reads this
    {
      Tables(weeks, currents, snapshots, events)
    }

    constructor (settings: Settings)
      ensures this.settings == settings && View() == EMPTY
    {
      this.settings := settings;
      weeks, currents, snapshots, events := {}, map[], [], [];
    }

    method DeriveFrom(previous: Option<Current>, o: Observation) returns (derived: seq<ProgressEvent>)
      ensures derived == if previous.None? then [] else Derive(settings.completed, previous.value.state, o)
    {
      derived := [];
      if previous.Some? {
        derived := DeriveProgressEvents(settings.completed, previous.value.state, o);
      }
    }

    /** One turn of the loop, with what it adds to the two counters; false is a violated unique
        constraint, seen at the next flush. */
    method RecordObservation(o: Observation) returns (ok: bool, snapshotsCreated: nat, eventsCreated: nat)
      modifies this
      ensures ok <==> RecordOne(settings, old(View()), o).Some?
      ensures ok ==> View() == RecordOne(settings, old(View()), o).value
      ensures |snapshots| == |old(snapshots)| + snapshotsCreated && |events| == |old(events)| + eventsCreated
    {
      ghost var t := View();
      var week := WeekStart(o.localDate);
      weeks := weeks + {(o.projectKey, week)};
      var previous := if KeyOf(o) in currents then Some(currents[KeyOf(o)]) else None;
      var fingerprint := settings.fingerprint(CanonicalState(o));
      var derived := DeriveFrom(previous, o);
      assert previous == Previous(t, o) && derived == Derived(settings, t, o);
      ok, snapshotsCreated := true, 0;
      if previous.None? || previous.value.fingerprint != fingerprint || previous.value.week != week {
        ok := !SnapshotTaken(snapshots, KeyOf(o), week, fingerprint);
        snapshots := snapshots + [Snapshot(KeyOf(o), week, o, fingerprint)];
        snapshotsCreated := 1;
      }
      var lastProgress := if previous.None? then Some(o.jiraUpdatedAt) else previous.value.lastProgressAt;
      if exists event :: event in derived && event.structured {
        lastProgress := Some(o.jiraUpdatedAt);
      }
      assert ok <==> !(NeedsSnapshot(settings, t, o) && SnapshotTaken(t.snapshots, KeyOf(o), week, fingerprint));
      currents := currents[KeyOf(o) := Current(week, fingerprint, o.capturedAt, o.jiraUpdatedAt, lastProgress, o)];
      assert currents[KeyOf(o)] == NewCurrent(t, settings, o);
      var entries := LogEntries(settings, o, derived);
      ok := ok && EventsInsertable(events, entries);
      events := events + entries;
      assert View() == Recorded(settings, t, o) && (ok <==> !Refused(settings, t, o));
      eventsCreated := |derived|;
    }

    /** `None` is the rolled-back batch; the counts are what the tables grew by. */
    method RecordObservations(observations: seq<Observation>) returns (result: Option<Counts>)
      modifies this
      ensures View() == CommitBatch(settings, old(View()), observations)
      ensures result.None? <==> RecordAll(settings, old(View()), observations).None?
      ensures result.Some? ==>
        && result.value.observed == |observations|
        && |snapshots| == |old(snapshots)| + result.value.snapshotsCreated
        && |events| == |old(events)| + result.value.eventsCreated
    {
      var before := View();
      var snapshotsCreated, eventsCreated := 0, 0;
      for i := 0 to |observations|
        invariant RecordAll(settings, before, observations[..i]) == Some(View())
        invariant |snapshots| == |before.snapshots| + snapshotsCreated
        invariant |events| == |before.events| + eventsCreated
      {
        NextRecorded(settings, before, observations, i, View());
        var ok, snapshotsAdded, eventsAdded := RecordObservation(observations[i]);
        if !ok {
          AbortStays(settings, before, observations, i + 1);
          weeks, currents, snapshots, events := before.weeks, before.currents, before.snapshots, before.events;
          return None;
        }
        snapshotsCreated := snapshotsCreated + snapshotsAdded;
        eventsCreated := eventsCreated + eventsAdded;
      }
      assert observations[..|observations|] == observations;
      return Some(Counts(|observations|, snapshotsCreated, eventsCreated));
    }
  }

  lemma NextRecorded(settings: Settings, t: Tables, batch: seq<Observation>, i: nat, before: Tables)
    requires i < |batch| && RecordAll(settings, t, batch[..i]) == Some(before)
    ensures RecordAll(settings, t, batch[..i + 1]) == RecordOne(settings, before, batch[i])
  {
    TakeTake(batch, i);
  }

  lemma {:induction false} RecordGrows(settings: Settings, t: Tables, batch: seq<Observation>)
    requires RecordAll(settings, t, batch).Some?
    ensures t.snapshots <= RecordAll(settings, t, batch).value.snapshots
    ensures t.events <= RecordAll(settings, t, batch).value.events
  {
    if batch == [] {
    } else {
      RecordGrows(settings, t, batch[..|batch| - 1]);
    }
  }

  lemma {:induction false} AbortStays(settings: Settings, t: Tables, batch: seq<Observation>, k: nat)
    requires k <= |batch| && RecordAll(settings, t, batch[..k]).None?
    ensures RecordAll(settings, t, batch).None?
    decreases |batch| - k
  {
    if k < |batch| {
      assert batch[..k + 1][..k] == batch[..k];
      AbortStays(settings, t, batch, k + 1);
    } else {
      assert batch[..k] == batch;
    }
  }

  // ----- the history of one issue

  function FirstSnapshot(snapshots: seq<Snapshot>, key: Key): Option<Observation> {
    if snapshots == [] then None
    else
      var last := |snapshots| - 1;
      match FirstSnapshot(snapshots[..last], key)
      case Some(o) => Some(o)
      case None => if snapshots[last].key == key then Some(snapshots[last].observation) else None
  }

  function EventsOf(events: seq<LoggedEvent>, key: Key): seq<ProgressEvent> {
    if events == [] then []
    else
      var last := |events| - 1;
      EventsOf(events[..last], key) + if events[last].key == key then [events[last].event] else []
  }

  lemma {:induction false} EventsOfLogged(events: seq<LoggedEvent>, settings: Settings, o: Observation,
                                          derived: seq<ProgressEvent>, key: Key)
    ensures EventsOf(events + LogEntries(settings, o, derived), key)
         == EventsOf(events, key) + (if key == KeyOf(o) then derived else [])
  {
    if derived == [] {
      assert events + [] == events;
    } else {
      var last := |derived| - 1;
      var entries := LogEntries(settings, o, derived[..last]);
      EventsOfLogged(events, settings, o, derived[..last], key);
      var all := events + LogEntries(settings, o, derived);
      assert all == (events + entries) + [LogEntry(settings, o, derived[last])];
      assert all[..|all| - 1] == events + entries;
      InitAndLast(derived);
    }
  }

  lemma FirstSnapshotLonger(snapshots: seq<Snapshot>, more: Snapshot, key: Key)
    ensures FirstSnapshot(snapshots + [more], key) ==
      if FirstSnapshot(snapshots, key).Some? then FirstSnapshot(snapshots, key)
      else if more.key == key then Some(more.observation) else None
  {
  }

  /** The stored current state of an issue is its event log folded over its first snapshot, the
      `blocked` flag apart. */
  ghost predicate Faithful(settings: Settings, t: Tables, key: Key) {
    if key in t.currents then
      var current := t.currents[key];
      && KeyOf(current.state) == key
      && current.fingerprint == settings.fingerprint(CanonicalState(current.state))
      && SnapshotTaken(t.snapshots, key, current.week, current.fingerprint)
      && FirstSnapshot(t.snapshots, key).Some?
      && Replay(Strip(CanonicalState(FirstSnapshot(t.snapshots, key).value)), EventsOf(t.events, key))
           == Strip(CanonicalState(current.state))
    else
      FirstSnapshot(t.snapshots, key).None? && EventsOf(t.events, key) == []
  }

  ghost predicate AllFaithful(settings: Settings, t: Tables) {
    forall key: Key :: Faithful(settings, t, key)
  }

  lemma SnapshotTakenLonger(snapshots: seq<Snapshot>, more: Snapshot, key: Key, week: int, fingerprint: string)
    requires SnapshotTaken(snapshots, key, week, fingerprint)
    ensures SnapshotTaken(snapshots + [more], key, week, fingerprint)
  {
    var i :| 0 <= i < |snapshots|
      && snapshots[i].key == key && snapshots[i].week == week && snapshots[i].fingerprint == fingerprint;
    assert (snapshots + [more])[i] == snapshots[i];
  }

  lemma SameHistorySameFaith(settings: Settings, t: Tables, t': Tables, key: Key)
    requires Faithful(settings, t, key)
    requires key in t'.currents <==> key in t.currents
    requires key in t.currents ==> t'.currents[key] == t.currents[key]
    requires key in t.currents ==> SnapshotTaken(t'.snapshots, key, t.currents[key].week, t.currents[key].fingerprint)
    requires FirstSnapshot(t'.snapshots, key) == FirstSnapshot(t.snapshots, key)
    requires EventsOf(t'.events, key) == EventsOf(t.events, key)
    ensures Faithful(settings, t', key)
  {
  }

  lemma OtherIssueKept(settings: Settings, t: Tables, o: Observation, key: Key)
    requires Faithful(settings, t, key) && RecordOne(settings, t, o).Some? && key != KeyOf(o)
    ensures Faithful(settings, RecordOne(settings, t, o).value, key)
  {
    EventsOfLogged(t.events, settings, o, Derived(settings, t, o), key);
    FirstSnapshotLonger(t.snapshots, SnapshotOf(settings, o), key);
    if key in t.currents {
      SnapshotTakenLonger(t.snapshots, SnapshotOf(settings, o), key, t.currents[key].week, t.currents[key].fingerprint);
    }
    SameHistorySameFaith(settings, t, RecordOne(settings, t, o).value, key);
  }

  lemma ObservedSnapshotTaken(settings: Settings, t: Tables, o: Observation)
    requires Faithful(settings, t, KeyOf(o)) && RecordOne(settings, t, o).Some?
    ensures SnapshotTaken(RecordOne(settings, t, o).value.snapshots, KeyOf(o), WeekStart(o.localDate),
                          settings.fingerprint(CanonicalState(o)))
  {
    if NeedsSnapshot(settings, t, o) {
      assert RecordOne(settings, t, o).value.snapshots[|t.snapshots|] == SnapshotOf(settings, o);
    }
  }

  lemma ObservedIssueKept(settings: Settings, t: Tables, o: Observation)
    requires Faithful(settings, t, KeyOf(o)) && RecordOne(settings, t, o).Some?
    ensures Faithful(settings, RecordOne(settings, t, o).value, KeyOf(o))
  {
    var key, derived := KeyOf(o), Derived(settings, t, o);
    ObservedSnapshotTaken(settings, t, o);
    EventsOfLogged(t.events, settings, o, derived, key);
    FirstSnapshotLonger(t.snapshots, SnapshotOf(settings, o), key);
    if key in t.currents {
      var first := Strip(CanonicalState(FirstSnapshot(t.snapshots, key).value));
      ReplayAppend(first, EventsOf(t.events, key), derived);
      DeriveReplays(settings.completed, t.currents[key].state, o);
    } else {
      assert EventsOf(t.events, key) + derived == [];
    }
  }

  lemma RecordKeepsFaithful(settings: Settings, t: Tables, o: Observation)
    requires AllFaithful(settings, t) && RecordOne(settings, t, o).Some?
    ensures AllFaithful(settings, RecordOne(settings, t, o).value)
  {
    forall key: Key
      ensures Faithful(settings, RecordOne(settings, t, o).value, key)
    {
      assert Faithful(settings, t, key);
      if key == KeyOf(o) { ObservedIssueKept(settings, t, o); } else { OtherIssueKept(settings, t, o, key); }
    }
  }

  lemma {:induction false} BatchKeepsFaithful(settings: Settings, t: Tables, batch: seq<Observation>)
    requires AllFaithful(settings, t)
    ensures RecordAll(settings, t, batch).Some? ==> AllFaithful(settings, RecordAll(settings, t, batch).value)
  {
    if batch == [] {
    } else if RecordAll(settings, t, batch).Some? {
      var shorter := batch[..|batch| - 1];
      BatchKeepsFaithful(settings, t, shorter);
      RecordKeepsFaithful(settings, RecordAll(settings, t, shorter).value, batch[|batch| - 1]);
    }
  }

  /** After any sequence of batches, the ones that abort included, folding an issue's committed
      events over its first snapshot gives its stored current state in every field but `blocked`. */
  lemma {:induction false} EventLogReplaysCurrentState(settings: Settings, batches: seq<seq<Observation>>)
    ensures AllFaithful(settings, RunBatches(settings, batches))
  {
    if batches == [] {
      forall key: Key
        ensures Faithful(settings, EMPTY, key)
      {
      }
    } else {
      var before := batches[..|batches| - 1];
      EventLogReplaysCurrentState(settings, before);
      BatchKeepsFaithful(settings, RunBatches(settings, before), batches[|batches| - 1]);
    }
  }

  // ----- snapshots

  /** The fingerprint tells two states apart. */
  predicate Tells(settings: Settings, a: Canonical, b: Canonical) {
    settings.fingerprint(a) == settings.fingerprint(b) ==> a == b
  }

  /** The issue is known, was last seen in the same week, and in another state whose fingerprint is
      the same. */
  predicate Collides(settings: Settings, t: Tables, o: Observation) {
    && KeyOf(o) in t.currents
    && t.currents[KeyOf(o)].week == WeekStart(o.localDate)
    && !Tells(settings, CanonicalState(t.currents[KeyOf(o)].state), CanonicalState(o))
  }

  /** The recorder inserts a snapshot when the issue is new, its work week changed, or an event was
      derived, and at no other time; this is so exactly as long as the fingerprint tells the
      observed state from the stored one. */
  lemma SnapshotExactlyWhen(settings: Settings, t: Tables, o: Observation)
    requires AllFaithful(settings, t) && RecordOne(settings, t, o).Some?
    ensures
      var grew := |RecordOne(settings, t, o).value.snapshots| == |t.snapshots| + 1;
      var due := || KeyOf(o) !in t.currents
                 || t.currents[KeyOf(o)].week != WeekStart(o.localDate)
                 || Derived(settings, t, o) != [];
      (grew <==> due) <==> !Collides(settings, t, o)
  {
    assert Faithful(settings, t, KeyOf(o));
    if KeyOf(o) in t.currents {
      EmptyIffUnchanged(settings.completed, t.currents[KeyOf(o)].state, o);
    }
  }

  // ----- states that were left

  /** The issue was recorded with this fingerprint in this week, and has moved on since. */
  predicate Left(t: Tables, key: Key, week: int, fingerprint: string) {
    && SnapshotTaken(t.snapshots, key, week, fingerprint)
    && key in t.currents
    && !(t.currents[key].week == week && t.currents[key].fingerprint == fingerprint)
  }

  predicate Shows(settings: Settings, o: Observation, key: Key, week: int, fingerprint: string) {
    KeyOf(o) == key && WeekStart(o.localDate) == week && settings.fingerprint(CanonicalState(o)) == fingerprint
  }

  /** A state that was left in a week cannot be observed again that week, and stays left. */
  lemma LeftStays(settings: Settings, t: Tables, o: Observation, key: Key, week: int, fingerprint: string)
    requires Left(t, key, week, fingerprint) && RecordOne(settings, t, o).Some?
    ensures !Shows(settings, o, key, week, fingerprint)
    ensures Left(RecordOne(settings, t, o).value, key, week, fingerprint)
  {
    SnapshotTakenLonger(t.snapshots, SnapshotOf(settings, o), key, week, fingerprint);
  }

  lemma {:induction false} LeftStaysInBatch(settings: Settings, t: Tables, batch: seq<Observation>,
                                            key: Key, week: int, fingerprint: string)
    requires Left(t, key, week, fingerprint) && RecordAll(settings, t, batch).Some?
    ensures Left(RecordAll(settings, t, batch).value, key, week, fingerprint)
    ensures forall o | o in batch :: !Shows(settings, o, key, week, fingerprint)
  {
    if batch == [] {
    } else {
      var shorter, last := batch[..|batch| - 1], batch[|batch| - 1];
      var before := LastRecorded(settings, t, batch);
      LeftStaysInBatch(settings, t, shorter, key, week, fingerprint);
      LeftStays(settings, before, last, key, week, fingerprint);
      InitAndLast(batch);
    }
  }

  /** A batch that commits had committed before its last observation, which was then recorded. */
  lemma LastRecorded(settings: Settings, t: Tables, batch: seq<Observation>) returns (before: Tables)
    requires batch != [] && RecordAll(settings, t, batch).Some?
    ensures RecordAll(settings, t, batch[..|batch| - 1]) == Some(before)
    ensures RecordOne(settings, before, batch[|batch| - 1]) == RecordAll(settings, t, batch)
  {
    before := RecordAll(settings, t, batch[..|batch| - 1]).value;
  }

  lemma PrefixRecorded(settings: Settings, t: Tables, batch: seq<Observation>, i: nat) returns (before: Tables)
    requires i <= |batch| && RecordAll(settings, t, batch).Some?
    ensures RecordAll(settings, t, batch[..i]) == Some(before)
    ensures RecordAll(settings, before, batch[i..]) == RecordAll(settings, t, batch)
  {
    assert batch == batch[..i] + batch[i..];
    RecordSplits(settings, t, batch[..i], batch[i..]);
    before := RecordAll(settings, t, batch[..i]).value;
  }

  lemma {:induction false} RecordSplits(settings: Settings, t: Tables, a: seq<Observation>, b: seq<Observation>)
    ensures RecordAll(settings, t, a + b) ==
      if RecordAll(settings, t, a).None? then None else RecordAll(settings, RecordAll(settings, t, a).value, b)
    decreases |b|
  {
    if b == [] {
      assert a + b == a;
    } else {
      assert (a + b)[..|a + b| - 1] == a + b[..|b| - 1];
      RecordSplits(settings, t, a, b[..|b| - 1]);
    }
  }

  lemma TakenStays(a: seq<Snapshot>, b: seq<Snapshot>, key: Key, week: int, fingerprint: string)
    requires SnapshotTaken(a, key, week, fingerprint) && a <= b
    ensures SnapshotTaken(b, key, week, fingerprint)
  {
    var i :| 0 <= i < |a| && a[i].key == key && a[i].week == week && a[i].fingerprint == fingerprint;
    assert b[i] == a[i];
  }

  /** The tables right after an observation: its state is taken and current. */
  lemma JustRecorded(settings: Settings, t: Tables, o: Observation)
    requires AllFaithful(settings, t) && RecordOne(settings, t, o).Some?
    ensures
      var after := RecordOne(settings, t, o).value;
      && SnapshotTaken(after.snapshots, KeyOf(o), WeekStart(o.localDate), settings.fingerprint(CanonicalState(o)))
      && KeyOf(o) in after.currents
      && after.currents[KeyOf(o)].week == WeekStart(o.localDate)
      && after.currents[KeyOf(o)].fingerprint == settings.fingerprint(CanonicalState(o))
  {
    assert Faithful(settings, t, KeyOf(o));
    ObservedSnapshotTaken(settings, t, o);
  }

  /** An observation recorded in a batch, and everything recorded after it up to another of the
      same issue in another state: the first state is left. */
  lemma BecomesLeft(settings: Settings, t: Tables, between: seq<Observation>, a: Observation, b: Observation)
    requires AllFaithful(settings, t) && RecordAll(settings, t, between).Some?
    requires SnapshotTaken(t.snapshots, KeyOf(a), WeekStart(a.localDate), settings.fingerprint(CanonicalState(a)))
    requires RecordOne(settings, RecordAll(settings, t, between).value, b).Some?
    requires KeyOf(a) == KeyOf(b) && settings.fingerprint(CanonicalState(a)) != settings.fingerprint(CanonicalState(b))
    ensures Left(RecordOne(settings, RecordAll(settings, t, between).value, b).value,
                 KeyOf(a), WeekStart(a.localDate), settings.fingerprint(CanonicalState(a)))
  {
    var before := RecordAll(settings, t, between).value;
    RecordGrows(settings, t, between);
    BatchKeepsFaithful(settings, t, between);
    JustRecorded(settings, before, b);
    TakenStays(t.snapshots, before.snapshots, KeyOf(a), WeekStart(a.localDate),
               settings.fingerprint(CanonicalState(a)));
    StillTaken(settings, before, b, KeyOf(a), WeekStart(a.localDate), settings.fingerprint(CanonicalState(a)));
  }

  lemma StillTaken(settings: Settings, t: Tables, o: Observation, key: Key, week: int, fingerprint: string)
    requires RecordOne(settings, t, o).Some? && SnapshotTaken(t.snapshots, key, week, fingerprint)
    ensures SnapshotTaken(RecordOne(settings, t, o).value.snapshots, key, week, fingerprint)
  {
    SnapshotTakenLonger(t.snapshots, SnapshotOf(settings, o), key, week, fingerprint);
  }

  /** The tables right after observation `i` of a batch that commits. */
  lemma TakenOnTheWay(settings: Settings, t: Tables, batch: seq<Observation>, i: nat) returns (after: Tables)
    requires AllFaithful(settings, t) && i < |batch| && RecordAll(settings, t, batch).Some?
    ensures AllFaithful(settings, after) && RecordAll(settings, after, batch[i + 1..]).Some?
    ensures SnapshotTaken(after.snapshots, KeyOf(batch[i]), WeekStart(batch[i].localDate),
                          settings.fingerprint(CanonicalState(batch[i])))
  {
    after := PrefixRecorded(settings, t, batch, i + 1);
    BatchKeepsFaithful(settings, t, batch[..i + 1]);
    var before := LastRecorded(settings, t, batch[..i + 1]);
    TakeTake(batch, i);
    BatchKeepsFaithful(settings, t, batch[..i]);
    JustRecorded(settings, before, batch[i]);
  }

  /** The tables right after observation `j`, which took its issue out of the state of `a`. */
  lemma LeftOnTheWay(settings: Settings, t: Tables, rest: seq<Observation>, a: Observation, j: nat)
    returns (middle: Tables)
    requires AllFaithful(settings, t) && j < |rest| && KeyOf(a) == KeyOf(rest[j])
    requires RecordAll(settings, t, rest).Some?
    requires SnapshotTaken(t.snapshots, KeyOf(a), WeekStart(a.localDate), settings.fingerprint(CanonicalState(a)))
    requires settings.fingerprint(CanonicalState(a)) != settings.fingerprint(CanonicalState(rest[j]))
    ensures RecordAll(settings, middle, rest[j + 1..]).Some?
    ensures Left(middle, KeyOf(a), WeekStart(a.localDate), settings.fingerprint(CanonicalState(a)))
  {
    middle := PrefixRecorded(settings, t, rest, j + 1);
    var before := LastRecorded(settings, t, rest[..j + 1]);
    TakeTake(rest, j);
    BecomesLeft(settings, t, rest[..j], a, rest[j]);
  }

  /** The batch from an observation on: another state of its issue, and then its own again, cannot
      both follow. */
  lemma NoWayBack(settings: Settings, t: Tables, rest: seq<Observation>, a: Observation, j: nat, k: nat)
    requires AllFaithful(settings, t) && j < k < |rest| && KeyOf(a) == KeyOf(rest[j])
    requires SnapshotTaken(t.snapshots, KeyOf(a), WeekStart(a.localDate), settings.fingerprint(CanonicalState(a)))
    requires settings.fingerprint(CanonicalState(a)) != settings.fingerprint(CanonicalState(rest[j]))
    requires Shows(settings, rest[k], KeyOf(a), WeekStart(a.localDate), settings.fingerprint(CanonicalState(a)))
    ensures RecordAll(settings, t, rest).None?
  {
    if RecordAll(settings, t, rest).Some? {
      var middle := LeftOnTheWay(settings, t, rest, a, j);
      var later, m := Rest(rest, j, k);
      LeftStaysInBatch(settings, middle, later, KeyOf(a), WeekStart(a.localDate),
                       settings.fingerprint(CanonicalState(a)));
    }
  }

  /** A batch in which an issue returns within a week to a state it had before another one never
      commits, whatever stands between and whatever came before: the return violates the snapshot
      key and takes the whole batch down with it. */
  lemma BackAndForthAborts(settings: Settings, t: Tables, batch: seq<Observation>, i: nat, j: nat, k: nat)
    requires AllFaithful(settings, t) && i < j < k < |batch|
    requires KeyOf(batch[i]) == KeyOf(batch[j]) == KeyOf(batch[k])
    requires WeekStart(batch[i].localDate) == WeekStart(batch[k].localDate)
    requires CanonicalState(batch[i]) == CanonicalState(batch[k]) != CanonicalState(batch[j])
    requires Tells(settings, CanonicalState(batch[i]), CanonicalState(batch[j]))
    ensures RecordAll(settings, t, batch).None?
  {
    if RecordAll(settings, t, batch).Some? {
      var after := TakenOnTheWay(settings, t, batch, i);
      var rest, m := Rest(batch, i, j);
      var _, n := Rest(batch, i, k);
      NoWayBack(settings, after, rest, batch[i], m, n);
    }
  }
}
