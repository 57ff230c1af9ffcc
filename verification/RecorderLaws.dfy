/** The recorder's tables, told from the observations that were committed. */
module RecorderLaws {
  import opened Wrappers
  import opened Sequences
  import opened TaskProgress
  import opened TaskRecorder

  // ----- the committed observations

  /** The observations of the batches that committed, in order. */
  function Committed(settings: Settings, batches: seq<seq<Observation>>): seq<Observation> {
    if batches == [] then []
    else
      var before, last := batches[..|batches| - 1], batches[|batches| - 1];
      Committed(settings, before) + if RecordAll(settings, RunBatches(settings, before), last).Some? then last else []
  }

  /** Any run of batches leaves the tables that recording its committed observations leaves. */
  lemma {:induction false} RunIsCommitted(settings: Settings, batches: seq<seq<Observation>>)
    ensures RecordAll(settings, EMPTY, Committed(settings, batches)) == Some(RunBatches(settings, batches))
  {
    if batches == [] {
    } else {
      var before, last := batches[..|batches| - 1], batches[|batches| - 1];
      RunIsCommitted(settings, before);
      RecordSplits(settings, EMPTY, Committed(settings, before), last);
      assert Committed(settings, before) + [] == Committed(settings, before);
    }
  }

  /** The last observation of an issue in a history, or -1. */
  function Latest(history: seq<Observation>, key: Key): (i: int)
    ensures -1 <= i < |history|
    ensures i >= 0 ==> KeyOf(history[i]) == key
    ensures forall j | i < j < |history| :: KeyOf(history[j]) != key
  {
    if history == [] then -1
    else if KeyOf(history[|history| - 1]) == key then |history| - 1
    else Latest(history[..|history| - 1], key)
  }

  /** The observation of the same issue before observation `i`, or -1. */
  function Before(history: seq<Observation>, i: nat): (p: int)
    requires i < |history|
    ensures -1 <= p < i
    ensures p >= 0 ==> KeyOf(history[p]) == KeyOf(history[i])
    ensures forall j | p < j < i :: KeyOf(history[j]) != KeyOf(history[i])
  {
    Latest(history[..i], KeyOf(history[i]))
  }

  lemma BeforeInPrefix(history: seq<Observation>, n: nat, i: nat)
    requires i < n <= |history|
    ensures Before(history[..n], i) == Before(history, i)
  {
    assert history[..n][..i] == history[..i];
  }

  // ----- the current state

  /** Observation `i` is its issue's first, or shows progress over the one before it. */
  predicate Advances(history: seq<Observation>, i: nat)
    requires i < |history|
  {
    Before(history, i) == -1 || Progresses(history[Before(history, i)], history[i])
  }

  predicate LastAdvance(history: seq<Observation>, key: Key, i: nat) {
    && i < |history| && KeyOf(history[i]) == key && Advances(history, i)
    && forall j | i < j < |history| && KeyOf(history[j]) == key :: !Advances(history, j)
  }

  /** The row of an issue is its latest observation, with the time Jira gave the last one that
      advanced it. */
  ghost predicate Summarised(settings: Settings, t: Tables, history: seq<Observation>, key: Key) {
    var latest := Latest(history, key);
    && (key in t.currents <==> latest >= 0)
    && (key in t.currents ==>
          var o, row := history[latest], t.currents[key];
          && row.state == o
          && row.week == WeekStart(o.localDate)
          && row.fingerprint == settings.fingerprint(CanonicalState(o))
          && row.lastObservedAt == o.capturedAt
          && row.jiraUpdatedAt == o.jiraUpdatedAt
          && exists i: nat :: LastAdvance(history, key, i) && row.lastProgressAt == Some(history[i].jiraUpdatedAt))
  }

  lemma AdvancesInPrefix(history: seq<Observation>, n: nat, j: nat)
    requires j < n <= |history|
    ensures Advances(history[..n], j) == Advances(history, j)
  {
    BeforeInPrefix(history, n, j);
  }

  lemma AdvanceKept(history: seq<Observation>, key: Key, i: nat)
    requires history != [] && LastAdvance(history[..|history| - 1], key, i)
    requires KeyOf(history[|history| - 1]) == key ==> !Advances(history, |history| - 1)
    ensures LastAdvance(history, key, i)
  {
    var n := |history| - 1;
    AdvancesInPrefix(history, n, i);
    forall j | i < j < |history| && KeyOf(history[j]) == key
      ensures !Advances(history, j)
    {
      if j < n {
        AdvancesInPrefix(history, n, j);
        assert history[..n][j] == history[j];
      }
    }
  }

  lemma SummaryStep(settings: Settings, t: Tables, history: seq<Observation>, key: Key)
    requires history != [] && Summarised(settings, t, history[..|history| - 1], key)
    requires RecordOne(settings, t, history[|history| - 1]).Some?
    ensures Summarised(settings, RecordOne(settings, t, history[|history| - 1]).value, history, key)
  {
    var n := |history| - 1;
    var shorter, o, t' := history[..n], history[n], RecordOne(settings, t, history[n]).value;
    if key == KeyOf(o) && (key !in t.currents || Progresses(t.currents[key].state, o)) {
      if key in t.currents { ProgressExactly(settings.completed, t.currents[key].state, o); }
      assert LastAdvance(history, key, n);
      assert t'.currents[key].lastProgressAt == Some(o.jiraUpdatedAt);
    } else if key in t.currents {
      if key == KeyOf(o) { ProgressExactly(settings.completed, t.currents[key].state, o); }
      var i: nat :| LastAdvance(shorter, key, i) && t.currents[key].lastProgressAt == Some(shorter[i].jiraUpdatedAt);
      AdvanceKept(history, key, i);
      assert t'.currents[key].lastProgressAt == Some(history[i].jiraUpdatedAt);
    }
  }

  lemma {:induction false} HistoryIsSummarised(settings: Settings, history: seq<Observation>, key: Key)
    requires RecordAll(settings, EMPTY, history).Some?
    ensures Summarised(settings, RecordAll(settings, EMPTY, history).value, history, key)
  {
    if history == [] {
    } else {
      var before := LastRecorded(settings, EMPTY, history);
      HistoryIsSummarised(settings, history[..|history| - 1], key);
      SummaryStep(settings, before, history, key);
    }
  }

  /** After any batches, an issue has a row exactly if one of its observations was committed; the row
      shows the latest of them, and its time of last progress is the one Jira gave the last that was
      the issue's first, changed its status, lowered its estimate or raised its logged hours. */
  lemma CurrentIsTheLatest(settings: Settings, batches: seq<seq<Observation>>, key: Key)
    ensures Summarised(settings, RunBatches(settings, batches), Committed(settings, batches), key)
  {
    RunIsCommitted(settings, batches);
    HistoryIsSummarised(settings, Committed(settings, batches), key);
  }

  // ----- the log and the snapshots

  /** Observation `i` logs an entry: an event due since the observation before it, filed under its
      issue, week and assignee at the time of Jira's update. */
  predicate Logs(settings: Settings, history: seq<Observation>, i: nat, entry: LoggedEvent) {
    && i < |history| && Before(history, i) >= 0
    && var o := history[i];
    && Due(entry.event, settings.completed, history[Before(history, i)], o)
    && entry.key == (o.projectKey, o.issueKey)
    && entry.week == WeekStart(o.localDate)
    && entry.employee == o.assignee
    && entry.occurredAt == o.jiraUpdatedAt
    && entry.fingerprint ==
         settings.eventFingerprint(EventMaterial(o.issueKey, entry.event.eventType, o.jiraUpdatedAt,
                                                 entry.event.oldValue, entry.event.newValue))
  }

  /** Observation `i` is kept as a snapshot: its issue's first, or of another state or week. */
  predicate Keeps(settings: Settings, history: seq<Observation>, i: nat, kept: Snapshot) {
    && i < |history|
    && var o, p := history[i], Before(history, i);
    && kept == Snapshot((o.projectKey, o.issueKey), WeekStart(o.localDate), o, settings.fingerprint(CanonicalState(o)))
    && (|| p == -1
        || WeekStart(history[p].localDate) != WeekStart(o.localDate)
        || settings.fingerprint(CanonicalState(history[p])) != settings.fingerprint(CanonicalState(o)))
  }

  lemma {:induction false} EntriesExactly(settings: Settings, o: Observation, events: seq<ProgressEvent>,
                                          entry: LoggedEvent)
    ensures entry in LogEntries(settings, o, events) <==>
              entry.event in events && entry == LogEntry(settings, o, entry.event)
  {
    if events == [] {
    } else {
      EntriesExactly(settings, o, events[..|events| - 1], entry);
      InitAndLast(events);
    }
  }

  ghost predicate Logged(settings: Settings, history: seq<Observation>, entry: LoggedEvent) {
    exists i: nat :: Logs(settings, history, i, entry)
  }

  ghost predicate Kept(settings: Settings, history: seq<Observation>, kept: Snapshot) {
    exists i: nat :: Keeps(settings, history, i, kept)
  }

  lemma LoggedLonger(settings: Settings, history: seq<Observation>, entry: LoggedEvent)
    requires history != []
    ensures Logged(settings, history, entry) <==>
      Logged(settings, history[..|history| - 1], entry) || Logs(settings, history, |history| - 1, entry)
  {
    var n := |history| - 1;
    forall i: nat | i < n
      ensures Logs(settings, history[..n], i, entry) == Logs(settings, history, i, entry)
    {
      BeforeInPrefix(history, n, i);
    }
  }

  lemma KeptLonger(settings: Settings, history: seq<Observation>, kept: Snapshot)
    requires history != []
    ensures Kept(settings, history, kept) <==>
      Kept(settings, history[..|history| - 1], kept) || Keeps(settings, history, |history| - 1, kept)
  {
    var n := |history| - 1;
    forall i: nat | i < n
      ensures Keeps(settings, history[..n], i, kept) == Keeps(settings, history, i, kept)
    {
      BeforeInPrefix(history, n, i);
    }
  }

  lemma NewEntries(settings: Settings, t: Tables, history: seq<Observation>, entry: LoggedEvent)
    requires history != []
    requires
      var o := history[|history| - 1];
      Summarised(settings, t, history[..|history| - 1], KeyOf(o)) && RecordOne(settings, t, o).Some?
    ensures
      var o := history[|history| - 1];
      entry in LogEntries(settings, o, Derived(settings, t, o)) <==> Logs(settings, history, |history| - 1, entry)
  {
    var o := history[|history| - 1];
    EntriesExactly(settings, o, Derived(settings, t, o), entry);
    if KeyOf(o) in t.currents {
      DerivedExactly(settings.completed, t.currents[KeyOf(o)].state, o, entry.event);
    }
  }

  lemma NewSnapshot(settings: Settings, t: Tables, history: seq<Observation>, kept: Snapshot)
    requires history != []
    requires Summarised(settings, t, history[..|history| - 1], KeyOf(history[|history| - 1]))
    ensures
      var o := history[|history| - 1];
      NeedsSnapshot(settings, t, o) && kept == SnapshotOf(settings, o) <==>
        Keeps(settings, history, |history| - 1, kept)
  {
  }

  lemma SnapshotAdded(settings: Settings, t: Tables, o: Observation, kept: Snapshot)
    requires RecordOne(settings, t, o).Some?
    ensures kept in RecordOne(settings, t, o).value.snapshots <==>
              kept in t.snapshots || (NeedsSnapshot(settings, t, o) && kept == SnapshotOf(settings, o))
  {
  }

  lemma EntriesAdded(settings: Settings, t: Tables, o: Observation, entry: LoggedEvent)
    requires RecordOne(settings, t, o).Some?
    ensures entry in RecordOne(settings, t, o).value.events <==>
              entry in t.events || entry in LogEntries(settings, o, Derived(settings, t, o))
  {
  }

  lemma {:induction false} TablesOfHistory(settings: Settings, history: seq<Observation>,
                                           entry: LoggedEvent, kept: Snapshot)
    requires RecordAll(settings, EMPTY, history).Some?
    ensures entry in RecordAll(settings, EMPTY, history).value.events <==> Logged(settings, history, entry)
    ensures kept in RecordAll(settings, EMPTY, history).value.snapshots <==> Kept(settings, history, kept)
  {
    if history == [] {
    } else {
      var n := |history| - 1;
      var before := LastRecorded(settings, EMPTY, history);
      TablesOfHistory(settings, history[..n], entry, kept);
      HistoryIsSummarised(settings, history[..n], KeyOf(history[n]));
      LoggedLonger(settings, history, entry);
      EntriesAdded(settings, before, history[n], entry);
      NewEntries(settings, before, history, entry);
      KeptLonger(settings, history, kept);
      SnapshotAdded(settings, before, history[n], kept);
      NewSnapshot(settings, before, history, kept);
    }
  }

  /** After any batches, the log holds exactly the events due from one committed observation of an
      issue to the next, and the snapshots are exactly the committed observations that were their
      issue's first or changed its state or week. */
  lemma LogAndSnapshotsExactly(settings: Settings, batches: seq<seq<Observation>>, entry: LoggedEvent, kept: Snapshot)
    ensures
      var t, history := RunBatches(settings, batches), Committed(settings, batches);
      && (entry in t.events <==> Logged(settings, history, entry))
      && (kept in t.snapshots <==> Kept(settings, history, kept))
  {
    RunIsCommitted(settings, batches);
    TablesOfHistory(settings, Committed(settings, batches), entry, kept);
  }

  ghost predicate Worked(history: seq<Observation>, projectKey: string, week: int) {
    exists o :: o in history && o.projectKey == projectKey && WeekStart(o.localDate) == week
  }

  lemma {:induction false} WeeksOfHistory(settings: Settings, history: seq<Observation>, projectKey: string, week: int)
    requires RecordAll(settings, EMPTY, history).Some?
    ensures (projectKey, week) in RecordAll(settings, EMPTY, history).value.weeks <==> Worked(history, projectKey, week)
  {
    if history == [] {
    } else {
      var before := LastRecorded(settings, EMPTY, history);
      WeeksOfHistory(settings, history[..|history| - 1], projectKey, week);
      InitAndLast(history);
    }
  }

  /** After any batches, the work weeks are exactly those of the committed observations. */
  lemma WeeksExactly(settings: Settings, batches: seq<seq<Observation>>, projectKey: string, week: int)
    ensures (projectKey, week) in RunBatches(settings, batches).weeks <==>
              Worked(Committed(settings, batches), projectKey, week)
  {
    RunIsCommitted(settings, batches);
    WeeksOfHistory(settings, Committed(settings, batches), projectKey, week);
  }
}
