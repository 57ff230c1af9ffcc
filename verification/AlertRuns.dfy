/** What holds of an alert board over every run of recordings, transitions and resolutions. */
module AlertRuns {
  import opened Wrappers
  import opened RiskModels
  import opened AlertBoard

  /** One decision to notify: which alert and version, when, and for which occurrence. */
  datatype Notification = Notification(
    alertId: nat, version: nat, at: int, occurrence: nat, command: RiskCommand)

  datatype System = System(board: Board, log: seq<Notification>)

  datatype Action =
    | DoRecord(command: RiskCommand)
    | DoTransition(id: nat, expectedVersion: nat, target: AlertState, reason: Option<string>)
    | DoResolve(subject: string, riskType: string)

  /** Recordings carry their own time; nothing is demanded of its order. */
  function Apply(digest: string -> string, s: System, action: Action): System {
    match action
    case DoRecord(c) => RecordStep(digest, s, c)
    case DoTransition(id, version, target, reason) =>
      s.(board := TransitionTx(s.board, id, version, target, reason).0)
    case DoResolve(subject, riskType) =>
      s.(board := s.board.(alerts := ResolveActive(s.board.alerts, subject, riskType).0))
  }

  function RecordStep(digest: string -> string, s: System, c: RiskCommand): System {
    var r := Classify(digest, s.board, c);
    System(RecordTx(digest, s.board, c).0,
           if Notifies(r, c)
           then s.log + [Notification(r.id, r.alert.version, c.now, |s.board.occurrences|, c)]
           else s.log)
  }

  function Run(digest: string -> string, s: System, actions: seq<Action>): System {
    if actions == [] then s
    else Apply(digest, Run(digest, s, actions[..|actions| - 1]), actions[|actions| - 1])
  }

  predicate Initial(s: System) {
    s.board == EMPTY && s.log == []
  }

  // ----- histories

  function KeyOf(n: Notification): NotificationKey {
    NotificationKey(n.alertId, n.version)
  }

  function Keys(log: seq<Notification>): seq<NotificationKey> {
    seq(|log|, i requires 0 <= i < |log| => KeyOf(log[i]))
  }

  /** The severity of the last occurrence of an alert. */
  function LastSeverity(occurrences: seq<Occurrence>, id: nat): Option<RiskLevel> {
    if occurrences == [] then None
    else
      var last := |occurrences| - 1;
      if occurrences[last].alertId == id then Some(occurrences[last].severity)
      else LastSeverity(occurrences[..last], id)
  }

  /** The time of the last notification of an alert. */
  function LastNotified(log: seq<Notification>, id: nat): Option<int> {
    if log == [] then None
    else if log[|log| - 1].alertId == id then Some(log[|log| - 1].at)
    else LastNotified(log[..|log| - 1], id)
  }

  /** Occurrence `i` carries the next number of its alert: numbers run 1, 2, 3, ... */
  predicate Numbered(occurrences: seq<Occurrence>, i: nat)
    requires i < |occurrences|
  {
    occurrences[i].sequenceNumber == OccurrenceCount(occurrences[..i], occurrences[i].alertId) + 1
  }

  /** Why to notify, from the history alone: an email level, and a first occurrence, a strict rise
      over the last recorded severity, the new-evidence flag, or no notification since the
      cooldown. */
  predicate WorthNotifying(occurrences: seq<Occurrence>, log: seq<Notification>, id: nat, c: RiskCommand) {
    var severity, notified := LastSeverity(occurrences, id), LastNotified(log, id);
    && LevelRank(c.level) >= LevelRank(High)
    && (|| severity.None?
        || LevelRank(c.level) > LevelRank(severity.value)
        || c.important
        || notified.None?
        || c.now - notified.value >= c.cooldown)
  }

  /** Notification `j` was worth it when it was made, and a notified alert has a severity. */
  predicate Justified(s: System, j: nat)
    requires j < |s.log| && s.log[j].occurrence < |s.board.occurrences|
  {
    var n := s.log[j];
    var occurrence := s.board.occurrences[n.occurrence];
    && occurrence.alertId == n.alertId && occurrence.severity == n.command.level && n.at == n.command.now
    && WorthNotifying(s.board.occurrences[..n.occurrence], s.log[..j], n.alertId, n.command)
    && (LastNotified(s.log[..j], n.alertId).Some? ==>
          LastSeverity(s.board.occurrences[..n.occurrence], n.alertId).Some?)
  }

  /** The row of an alert remembers the end of its history. */
  predicate AlertFits(s: System, a: nat) {
    if a < |s.board.alerts| then
      && LastSeverity(s.board.occurrences, a) == Some(s.board.alerts[a].severity)
      && LastNotified(s.log, a) == s.board.alerts[a].lastNotifiedAt
    else
      LastSeverity(s.board.occurrences, a) == None && LastNotified(s.log, a) == None
  }

  predicate EntryFits(s: System, i: nat)
    requires i < |s.log|
  {
    && s.log[i].alertId < |s.board.alerts|
    && s.log[i].version <= s.board.alerts[s.log[i].alertId].version
    && s.log[i].occurrence < |s.board.occurrences|
    && Justified(s, i)
  }

  ghost predicate KeysDiffer(alerts: seq<Alert>) {
    forall a, b | 0 <= a < b < |alerts| :: alerts[a].dedupKey != alerts[b].dedupKey
  }

  ghost predicate VersionsRise(log: seq<Notification>) {
    forall i, j | 0 <= i < j < |log| && log[i].alertId == log[j].alertId :: log[i].version < log[j].version
  }

  ghost predicate AllNumbered(occurrences: seq<Occurrence>) {
    forall i | 0 <= i < |occurrences| :: Numbered(occurrences, i)
  }

  ghost predicate Inv(s: System) {
    && (forall a: nat :: AlertFits(s, a))
    && (forall i | 0 <= i < |s.log| :: EntryFits(s, i))
    && KeysDiffer(s.board.alerts)
    && VersionsRise(s.log)
    && s.board.outbox == Keys(s.log)
    && AllNumbered(s.board.occurrences)
  }

  // ----- small facts

  lemma {:induction false} LatestIn(log: seq<Notification>, id: nat, i: nat)
    requires forall a, b | 0 <= a < b < |log| && log[a].alertId == log[b].alertId == id :: log[a].at <= log[b].at
    requires i < |log| && log[i].alertId == id
    ensures LastNotified(log, id).Some? && log[i].at <= LastNotified(log, id).value
  {
    var last := |log| - 1;
    if log[last].alertId != id {
      LatestIn(log[..last], id, i);
    }
  }

  lemma LastSeverityLonger(occurrences: seq<Occurrence>, more: Occurrence, id: nat)
    ensures LastSeverity(occurrences + [more], id) ==
      if more.alertId == id then Some(more.severity) else LastSeverity(occurrences, id)
  {
  }

  lemma LastNotifiedLonger(log: seq<Notification>, more: Notification, id: nat)
    ensures LastNotified(log + [more], id) == if more.alertId == id then Some(more.at) else LastNotified(log, id)
  {
  }

  // ----- steps that do not record

  /** Alerts may change state and version; nothing else moves, and versions do not fall. */
  ghost predicate OnlyStates(a: seq<Alert>, b: seq<Alert>) {
    && |a| == |b|
    && (forall i | 0 <= i < |a| ::
          b[i] == a[i].(state := b[i].state, version := b[i].version) && a[i].version <= b[i].version)
  }

  lemma StatesKeepInv(s: System, alerts: seq<Alert>)
    requires Inv(s) && OnlyStates(s.board.alerts, alerts)
    ensures Inv(s.(board := s.board.(alerts := alerts)))
  {
    var s' := s.(board := s.board.(alerts := alerts));
    forall a: nat
      ensures AlertFits(s', a)
    {
      assert AlertFits(s, a);
    }
    forall i | 0 <= i < |s'.log|
      ensures EntryFits(s', i)
    {
      assert EntryFits(s, i) && Justified(s, i);
    }
  }

  lemma {:induction false} ResolveOnlyStates(alerts: seq<Alert>, subject: string, riskType: string)
    ensures OnlyStates(alerts, ResolveActive(alerts, subject, riskType).0)
  {
    if alerts == [] {
    } else {
      ResolveOnlyStates(alerts[..|alerts| - 1], subject, riskType);
    }
  }

  // ----- the recording step

  /** What a recording that occurs finds: an alert of the board renewed, or a new one. */
  ghost predicate Found(s: System, r: Recording, c: RiskCommand) {
    && r.Occurred? && r.id <= |s.board.alerts|
    && r.previous == LastSeverity(s.board.occurrences, r.id)
    && r.alert.lastNotifiedAt == LastNotified(s.log, r.id)
    && r.alert.severity == c.level
    && (r.id < |s.board.alerts| ==>
          && r.alert.version == s.board.alerts[r.id].version + 1
          && r.alert.dedupKey == s.board.alerts[r.id].dedupKey
          && r.previous.Some?)
    && (r.id == |s.board.alerts| ==> r.alert.lastNotifiedAt == None)
    && (forall a | 0 <= a < |s.board.alerts| && a != r.id :: s.board.alerts[a].dedupKey != r.alert.dedupKey)
  }

  lemma ClassifyFinds(digest: string -> string, s: System, c: RiskCommand)
    requires Inv(s) && Classify(digest, s.board, c).Occurred?
    ensures Found(s, Classify(digest, s.board, c), c)
  {
    assert AlertFits(s, Classify(digest, s.board, c).id);
  }

  function Stored(r: Recording, c: RiskCommand): Alert
    requires r.Occurred?
  {
    if Notifies(r, c) then r.alert.(lastNotifiedAt := Some(c.now)) else r.alert
  }

  function NotificationOf(s: System, r: Recording, c: RiskCommand): Notification
    requires r.Occurred?
  {
    Notification(r.id, r.alert.version, c.now, |s.board.occurrences|, c)
  }

  /** The step a recording makes, apart from the outbox. */
  ghost predicate Recorded(s: System, s': System, r: Recording, c: RiskCommand) {
    && r.Occurred? && r.id <= |s.board.alerts|
    && |s'.board.alerts| == (if r.id < |s.board.alerts| then |s.board.alerts| else |s.board.alerts| + 1)
    && s'.board.alerts[r.id] == Stored(r, c)
    && (forall a | 0 <= a < |s.board.alerts| && a != r.id :: s'.board.alerts[a] == s.board.alerts[a])
    && s'.board.occurrences == s.board.occurrences
         + [Occurrence(r.id, OccurrenceCount(s.board.occurrences, r.id) + 1, c.level, c.fingerprint)]
    && s'.log == s.log + (if Notifies(r, c) then [NotificationOf(s, r, c)] else [])
  }

  lemma StepRecords(digest: string -> string, s: System, c: RiskCommand)
    requires Classify(digest, s.board, c).Occurred?
    ensures Recorded(s, RecordStep(digest, s, c), Classify(digest, s.board, c), c)
  {
  }

  lemma AlertStaysFit(s: System, s': System, r: Recording, c: RiskCommand, a: nat)
    requires Found(s, r, c) && Recorded(s, s', r, c) && AlertFits(s, a)
    ensures AlertFits(s', a)
  {
    var occurrence := s'.board.occurrences[|s.board.occurrences|];
    assert s'.board.occurrences == s.board.occurrences + [occurrence];
    LastSeverityLonger(s.board.occurrences, occurrence, a);
    if Notifies(r, c) {
      LastNotifiedLonger(s.log, NotificationOf(s, r, c), a);
    } else {
      assert s'.log == s.log;
    }
  }

  lemma NumbersStay(s: System, s': System, r: Recording, c: RiskCommand)
    requires AllNumbered(s.board.occurrences) && Recorded(s, s', r, c)
    ensures AllNumbered(s'.board.occurrences)
  {
    var occurrences := s'.board.occurrences;
    assert occurrences[..|s.board.occurrences|] == s.board.occurrences;
    forall i | 0 <= i < |occurrences|
      ensures Numbered(occurrences, i)
    {
      if i < |s.board.occurrences| {
        assert Numbered(s.board.occurrences, i) && occurrences[..i] == s.board.occurrences[..i];
      }
    }
  }

  lemma EntryStaysFit(s: System, s': System, r: Recording, c: RiskCommand, i: nat)
    requires Found(s, r, c) && Recorded(s, s', r, c) && i < |s.log| && EntryFits(s, i)
    ensures EntryFits(s', i)
  {
    var o := s.log[i].occurrence;
    assert s'.log[i] == s.log[i] && s'.log[..i] == s.log[..i];
    assert s'.board.occurrences[..o] == s.board.occurrences[..o];
  }

  /** The decision of the rule, in terms of the history. */
  lemma NotifiesIfWorthIt(s: System, r: Recording, c: RiskCommand)
    requires Found(s, r, c)
    ensures Notifies(r, c) <==> WorthNotifying(s.board.occurrences, s.log, r.id, c)
  {
  }

  lemma NewEntryFits(s: System, s': System, r: Recording, c: RiskCommand)
    requires Found(s, r, c) && Recorded(s, s', r, c) && Notifies(r, c)
    ensures EntryFits(s', |s.log|)
  {
    NotifiesIfWorthIt(s, r, c);
    assert s'.board.occurrences[..|s.board.occurrences|] == s.board.occurrences;
    assert s'.log[..|s.log|] == s.log;
  }

  /** No earlier notification of the alert carries its new version. */
  lemma VersionIsNew(s: System, r: Recording, c: RiskCommand, i: nat)
    requires Found(s, r, c) && i < |s.log| && EntryFits(s, i) && s.log[i].alertId == r.id
    ensures s.log[i].version < r.alert.version
  {
  }

  lemma VersionsStillRise(s: System, s': System, r: Recording, c: RiskCommand)
    requires Inv(s) && Found(s, r, c) && Recorded(s, s', r, c)
    ensures VersionsRise(s'.log)
  {
    forall i | 0 <= i < |s.log| && s.log[i].alertId == r.id
      ensures s.log[i].version < r.alert.version
    {
      VersionIsNew(s, r, c, i);
    }
  }

  /** The new notification is not swallowed: its key is not in the outbox yet. */
  lemma KeyIsFresh(s: System, r: Recording, c: RiskCommand)
    requires Inv(s) && Found(s, r, c)
    ensures NotificationKey(r.id, r.alert.version) !in s.board.outbox
  {
    forall i | 0 <= i < |s.log|
      ensures KeyOf(s.log[i]) != NotificationKey(r.id, r.alert.version)
    {
      if s.log[i].alertId == r.id { VersionIsNew(s, r, c, i); }
    }
  }

  /** The outbox grows by exactly the notification decided on. */
  lemma OutboxFollows(digest: string -> string, s: System, c: RiskCommand)
    requires Inv(s) && Classify(digest, s.board, c).Occurred?
    ensures RecordStep(digest, s, c).board.outbox == Keys(RecordStep(digest, s, c).log)
  {
    var r := Classify(digest, s.board, c);
    ClassifyFinds(digest, s, c);
    KeyIsFresh(s, r, c);
    KeysLonger(s.log, NotificationOf(s, r, c));
  }

  lemma KeysLonger(log: seq<Notification>, more: Notification)
    ensures Keys(log + [more]) == Keys(log) + [KeyOf(more)]
  {
  }

  lemma OccurringKeepsInv(digest: string -> string, s: System, c: RiskCommand)
    requires Inv(s) && Classify(digest, s.board, c).Occurred?
    ensures Inv(RecordStep(digest, s, c))
  {
    var r, s' := Classify(digest, s.board, c), RecordStep(digest, s, c);
    ClassifyFinds(digest, s, c);
    StepRecords(digest, s, c);
    OutboxFollows(digest, s, c);
    PartsKept(s, s', r, c);
  }

  lemma PartsKept(s: System, s': System, r: Recording, c: RiskCommand)
    requires Inv(s) && Found(s, r, c) && Recorded(s, s', r, c)
    ensures forall a: nat :: AlertFits(s', a)
    ensures forall i | 0 <= i < |s'.log| :: EntryFits(s', i)
    ensures KeysDiffer(s'.board.alerts) && VersionsRise(s'.log) && AllNumbered(s'.board.occurrences)
  {
    forall a: nat
      ensures AlertFits(s', a)
    {
      AlertStaysFit(s, s', r, c, a);
    }
    forall i | 0 <= i < |s'.log|
      ensures EntryFits(s', i)
    {
      if i < |s.log| { EntryStaysFit(s, s', r, c, i); } else { NewEntryFits(s, s', r, c); }
    }
    VersionsStillRise(s, s', r, c);
    NumbersStay(s, s', r, c);
    assert forall a | 0 <= a < |s'.board.alerts| ::
      s'.board.alerts[a].dedupKey == if a == r.id then r.alert.dedupKey else s.board.alerts[a].dedupKey;
  }

  lemma RecordKeepsInv(digest: string -> string, s: System, c: RiskCommand)
    requires Inv(s)
    ensures Inv(RecordStep(digest, s, c))
  {
    if Classify(digest, s.board, c).Occurred? {
      OccurringKeepsInv(digest, s, c);
    } else {
      assert RecordStep(digest, s, c) == s;
    }
  }

  lemma TransitionKeepsInv(s: System, id: nat, version: nat, target: AlertState, reason: Option<string>)
    requires Inv(s)
    ensures Inv(s.(board := TransitionTx(s.board, id, version, target, reason).0))
  {
    var board := TransitionTx(s.board, id, version, target, reason).0;
    assert board == s.board.(alerts := board.alerts);
    StatesKeepInv(s, board.alerts);
  }

  lemma StepKeepsInv(digest: string -> string, s: System, action: Action)
    requires Inv(s)
    ensures Inv(Apply(digest, s, action))
  {
    match action
    case DoRecord(c) => RecordKeepsInv(digest, s, c);
    case DoTransition(id, version, target, reason) => TransitionKeepsInv(s, id, version, target, reason);
    case DoResolve(subject, riskType) =>
      ResolveOnlyStates(s.board.alerts, subject, riskType);
      StatesKeepInv(s, ResolveActive(s.board.alerts, subject, riskType).0);
  }

  lemma InitialIsSound(s: System)
    requires Initial(s)
    ensures Inv(s)
  {
    forall a: nat
      ensures AlertFits(s, a)
    {
    }
    assert Keys(s.log) == [];
  }

  lemma {:induction false} RunKeepsInv(digest: string -> string, s: System, actions: seq<Action>)
    requires Initial(s)
    ensures Inv(Run(digest, s, actions))
  {
    if actions == [] {
      InitialIsSound(s);
    } else {
      var before := Run(digest, s, actions[..|actions| - 1]);
      RunKeepsInv(digest, s, actions[..|actions| - 1]);
      StepKeepsInv(digest, before, actions[|actions| - 1]);
    }
  }

  // ----- results

  /** Every alert's occurrences are numbered 1..n without gap or repetition. */
  lemma OccurrencesAreNumbered(digest: string -> string, start: System, actions: seq<Action>, i: nat)
    requires Initial(start) && i < |Run(digest, start, actions).board.occurrences|
    ensures Numbered(Run(digest, start, actions).board.occurrences, i)
  {
    RunKeepsInv(digest, start, actions);
  }

  /** The outbox holds exactly one event for each decision to notify, in order: the versions of an
      alert rise between its notifications, so the idempotent append never swallows one. */
  lemma NoNotificationSwallowed(digest: string -> string, start: System, actions: seq<Action>)
    requires Initial(start)
    ensures Run(digest, start, actions).board.outbox == Keys(Run(digest, start, actions).log)
    ensures
      var log := Run(digest, start, actions).log;
      forall i, j | 0 <= i < j < |log| && log[i].alertId == log[j].alertId :: log[i].version < log[j].version
  {
    RunKeepsInv(digest, start, actions);
  }

  /** A recording that adds an occurrence notifies if and only if the history of its alert makes
      it worth it. */
  lemma NotifiedExactlyWhen(digest: string -> string, start: System, actions: seq<Action>, c: RiskCommand)
    requires Initial(start)
    requires
      var result := RecordTx(digest, Run(digest, start, actions).board, c).1;
      result.Some? && result.value.occurrenceCreated
    ensures
      var s := Run(digest, start, actions);
      var result := RecordTx(digest, s.board, c).1.value;
      && (result.notificationCreated <==> WorthNotifying(s.board.occurrences, s.log, result.alertId, c))
      && |RecordStep(digest, s, c).board.outbox| == |s.board.outbox| + (if result.notificationCreated then 1 else 0)
  {
    RunKeepsInv(digest, start, actions);
    var s := Run(digest, start, actions);
    var r := Classify(digest, s.board, c);
    ClassifyFinds(digest, s, c);
    NotifiesIfWorthIt(s, r, c);
    KeyIsFresh(s, r, c);
  }

  /** With times that do not fall from one notification of an alert to the next, two of them closer
      than the cooldown occur only on a strict rise over the last recorded severity or with the
      new-evidence flag. */
  lemma CooldownHolds(digest: string -> string, start: System, actions: seq<Action>, i: nat, j: nat)
    requires Initial(start) && i < j < |Run(digest, start, actions).log|
    requires
      var log := Run(digest, start, actions).log;
      && log[i].alertId == log[j].alertId && log[j].at - log[i].at < log[j].command.cooldown
      && (forall a, b | 0 <= a < b <= j && log[a].alertId == log[b].alertId == log[j].alertId :: log[a].at <= log[b].at)
    ensures
      var s := Run(digest, start, actions);
      var n := s.log[j];
      && n.occurrence < |s.board.occurrences| && s.board.occurrences[n.occurrence].alertId == n.alertId
      && (n.command.important
          || (var before := LastSeverity(s.board.occurrences[..n.occurrence], n.alertId);
              before.Some? && LevelRank(s.board.occurrences[n.occurrence].severity) > LevelRank(before.value)))
  {
    RunKeepsInv(digest, start, actions);
    var s := Run(digest, start, actions);
    assert EntryFits(s, j);
    LatestIn(s.log[..j], s.log[j].alertId, i);
  }

  /** A recording changes the board exactly when the risk is worth an alert and the fingerprint or
      the level is new for its alert; a closed alert that sees neither is not reopened. */
  lemma RecordingChangesExactlyWhen(digest: string -> string, b: Board, c: RiskCommand)
    ensures
      var found := FindAlert(b.alerts, digest(DedupMaterial(c.subject, c.riskType, c.window)));
      RecordTx(digest, b, c).0 != b <==>
        && c.level != Low
        && (found.None? || b.alerts[found.value].fingerprint != c.fingerprint ||
            b.alerts[found.value].severity != c.level)
  {
  }

  /** One alert per deduplication key, whatever the run. */
  lemma DedupKeysAreUnique(digest: string -> string, start: System, actions: seq<Action>)
    requires Initial(start)
    ensures
      var alerts := Run(digest, start, actions).board.alerts;
      forall a, b | 0 <= a < b < |alerts| :: alerts[a].dedupKey != alerts[b].dedupKey
  {
    RunKeepsInv(digest, start, actions);
  }
}
