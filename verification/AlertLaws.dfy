/** What each operation on alerts does to the rows, read off the board before and after it. */
module AlertLaws {
  import opened Wrappers
  import opened RiskModels
  import opened AlertBoard
  import opened AlertRuns

  /** The moves a manager can make, as pairs. */
  const MOVES: set<(AlertState, AlertState)> := {
    (New, Acknowledged), (New, Investigating), (New, Resolved), (New, Dismissed),
    (Acknowledged, Investigating), (Acknowledged, Resolved), (Acknowledged, Dismissed),
    (Investigating, Resolved), (Investigating, Dismissed),
    (Resolved, New), (Dismissed, New)}

  predicate Closed(alert: Alert) {
    alert.state == Resolved || alert.state == Dismissed
  }

  /** Every level but LOW reaches the inbox, HIGH and CRITICAL send mail, CRITICAL is prominent. */
  lemma RoutesExactly(level: Option<RiskLevel>)
    ensures RouteRisk(level).createInboxAlert <==> level in {Some(Medium), Some(High), Some(Critical)}
    ensures RouteRisk(level).sendEmail <==> level in {Some(High), Some(Critical)}
    ensures RouteRisk(level).prominent <==> level == Some(Critical)
  {
  }

  // ----- recordings

  function DedupKeyOf(digest: string -> string, c: RiskCommand): string {
    digest(c.subject + ":" + c.riskType + ":" + c.window)
  }

  /** A recording for a new alert stores it open, at version 1, with the recorded level and
      fingerprint, and notifies at the two mailing levels. */
  ghost predicate Opened(b: Board, after: Board, result: Option<RecordResult>, dedupKey: string, c: RiskCommand) {
    var mailed, id := c.level == High || c.level == Critical, |b.alerts|;
    && after.alerts == b.alerts + [
         Alert(c.subject, c.riskType, dedupKey, New, c.level, c.fingerprint, if mailed then Some(c.now) else None, 1)]
    && after.outbox == b.outbox + (if mailed then [NotificationKey(id, 1)] else [])
    && after.occurrences == b.occurrences + [Occurrence(id, 1, c.level, c.fingerprint)]
    && result == Some(RecordResult(id, true, mailed, 1))
  }

  /** A recording of another level or fingerprint for a stored alert: a closed one becomes NEW and any
      other keeps its state; level and fingerprint are the recorded ones, the version rises by one,
      and subject, type and key stay. */
  ghost predicate Rewritten(b: Board, after: Board, result: Option<RecordResult>, id: nat, c: RiskCommand) {
    && id < |b.alerts| && result.Some?
    && var row, mailed := b.alerts[id], result.value.notificationCreated;
    && after.alerts == b.alerts[id :=
         Alert(row.subject, row.riskType, row.dedupKey, if Closed(row) then New else row.state, c.level,
               c.fingerprint, if mailed then Some(c.now) else row.lastNotifiedAt, row.version + 1)]
    && after.outbox == b.outbox + (if mailed then [NotificationKey(id, row.version + 1)] else [])
    && after.occurrences == b.occurrences
         + [Occurrence(id, OccurrenceCount(b.occurrences, id) + 1, c.level, c.fingerprint)]
    && result == Some(RecordResult(id, true, mailed, row.version + 1))
    && (mailed <==>
          && (c.level == High || c.level == Critical)
          && (|| LevelRank(c.level) > LevelRank(row.severity) || c.important || row.lastNotifiedAt.None?
              || c.now - row.lastNotifiedAt.value >= c.cooldown))
  }

  lemma {:induction false} NoOccurrences(occurrences: seq<Occurrence>, id: nat)
    requires LastSeverity(occurrences, id) == None
    ensures OccurrenceCount(occurrences, id) == 0
  {
    if occurrences == [] {
    } else {
      NoOccurrences(occurrences[..|occurrences| - 1], id);
    }
  }

  lemma OpensExactly(digest: string -> string, s: System, c: RiskCommand)
    requires Inv(s) && c.level != Low
    requires forall a | 0 <= a < |s.board.alerts| :: s.board.alerts[a].dedupKey != DedupKeyOf(digest, c)
    ensures Opened(s.board, RecordTx(digest, s.board, c).0, RecordTx(digest, s.board, c).1, DedupKeyOf(digest, c), c)
  {
    var r := Classify(digest, s.board, c);
    ClassifyFinds(digest, s, c);
    KeyIsFresh(s, r, c);
    assert AlertFits(s, |s.board.alerts|);
    NoOccurrences(s.board.occurrences, |s.board.alerts|);
  }

  lemma RewritesExactly(digest: string -> string, s: System, c: RiskCommand, id: nat)
    requires Inv(s) && c.level != Low && id < |s.board.alerts|
    requires s.board.alerts[id].dedupKey == DedupKeyOf(digest, c)
    requires s.board.alerts[id].fingerprint != c.fingerprint || s.board.alerts[id].severity != c.level
    ensures Rewritten(s.board, RecordTx(digest, s.board, c).0, RecordTx(digest, s.board, c).1, id, c)
  {
    var r := Classify(digest, s.board, c);
    KeyIsFound(digest, s, c, id);
    ClassifyFinds(digest, s, c);
    KeyIsFresh(s, r, c);
  }

  lemma KeyIsFound(digest: string -> string, s: System, c: RiskCommand, id: nat)
    requires KeysDiffer(s.board.alerts) && id < |s.board.alerts|
    requires s.board.alerts[id].dedupKey == DedupKeyOf(digest, c)
    ensures FindAlert(s.board.alerts, digest(DedupMaterial(c.subject, c.riskType, c.window))) == Some(id)
  {
  }

  /** What a recording does, over every run: nothing at level LOW; a new alert where the key is new;
      nothing but its version reported where the stored level and fingerprint are the recorded ones;
      the stored alert rewritten, and reopened if it was closed, in every other case. */
  lemma RecordsExactly(digest: string -> string, start: System, actions: seq<Action>, c: RiskCommand)
    requires Initial(start)
    ensures
      var b := Run(digest, start, actions).board;
      var (after, result) := RecordTx(digest, b, c);
      && (c.level == Low ==> after == b && result == None)
      && (c.level != Low && (forall a | 0 <= a < |b.alerts| :: b.alerts[a].dedupKey != DedupKeyOf(digest, c)) ==>
            Opened(b, after, result, DedupKeyOf(digest, c), c))
      && (forall id | 0 <= id < |b.alerts| && b.alerts[id].dedupKey == DedupKeyOf(digest, c) && c.level != Low ::
            if b.alerts[id].fingerprint == c.fingerprint && b.alerts[id].severity == c.level
            then after == b && result == Some(RecordResult(id, false, false, b.alerts[id].version))
            else Rewritten(b, after, result, id, c))
  {
    var s := Run(digest, start, actions);
    RunKeepsInv(digest, start, actions);
    if c.level != Low {
      if forall a | 0 <= a < |s.board.alerts| :: s.board.alerts[a].dedupKey != DedupKeyOf(digest, c) {
        OpensExactly(digest, s, c);
      }
      forall id | 0 <= id < |s.board.alerts| && s.board.alerts[id].dedupKey == DedupKeyOf(digest, c)
        ensures
          var b, row := s.board, s.board.alerts[id];
          if row.fingerprint == c.fingerprint && row.severity == c.level
          then RecordTx(digest, b, c) == (b, Some(RecordResult(id, false, false, row.version)))
          else Rewritten(b, RecordTx(digest, b, c).0, RecordTx(digest, b, c).1, id, c)
      {
        var row := s.board.alerts[id];
        if row.fingerprint == c.fingerprint && row.severity == c.level {
          KeyIsFound(digest, s, c, id);
        } else {
          RewritesExactly(digest, s, c, id);
        }
      }
    }
  }

  // ----- transitions and resolutions

  /** A transition applies exactly to a stored alert in the expected version, along a move, with a
      reason that is not empty if it dismisses; it then stores the target and raises the version by
      one, and otherwise says what was wrong and changes nothing. */
  lemma TransitionsExactly(b: Board, id: nat, expectedVersion: nat, target: AlertState, reason: Option<string>)
    ensures
      var (after, result) := TransitionTx(b, id, expectedVersion, target, reason);
      if id >= |b.alerts| || b.alerts[id].version != expectedVersion then (after, result) == (b, NotApplied)
      else if (b.alerts[id].state, target) !in MOVES then (after, result) == (b, IllegalTransition)
      else if target == Dismissed && (reason == None || reason == Some("")) then (after, result) == (b, ReasonMissing)
      else
        && result == Applied
        && after == b.(alerts := b.alerts[id := b.alerts[id].(state := target, version := expectedVersion + 1)])
  {
  }

  predicate Open(alert: Alert, subject: string, riskType: string) {
    alert.subject == subject && alert.riskType == riskType && !Closed(alert)
  }

  function OpenAlerts(alerts: seq<Alert>, subject: string, riskType: string): set<nat> {
    set a: nat | a < |alerts| && Open(alerts[a], subject, riskType)
  }

  lemma {:induction false} ClosesOpen(alerts: seq<Alert>, subject: string, riskType: string)
    ensures
      var after := ResolveActive(alerts, subject, riskType).0;
      && |after| == |alerts|
      && forall a | 0 <= a < |alerts| ::
           after[a] == if Open(alerts[a], subject, riskType)
                       then alerts[a].(state := Resolved, version := alerts[a].version + 1)
                       else alerts[a]
  {
    if alerts == [] {
    } else {
      ClosesOpen(alerts[..|alerts| - 1], subject, riskType);
    }
  }

  lemma {:induction false} CountsOpen(alerts: seq<Alert>, subject: string, riskType: string)
    ensures ResolveActive(alerts, subject, riskType).1 == |OpenAlerts(alerts, subject, riskType)|
  {
    if alerts == [] {
    } else {
      var last := |alerts| - 1;
      CountsOpen(alerts[..last], subject, riskType);
      var earlier := OpenAlerts(alerts[..last], subject, riskType);
      assert OpenAlerts(alerts, subject, riskType)
          == if Open(alerts[last], subject, riskType) then earlier + {last} else earlier;
    }
  }

  /** A resolution closes exactly the open alerts of the subject and type, each one version on, and
      counts them. */
  lemma ResolvesExactly(alerts: seq<Alert>, subject: string, riskType: string)
    ensures
      var (after, count) := ResolveActive(alerts, subject, riskType);
      && |after| == |alerts|
      && (forall a | 0 <= a < |alerts| ::
            after[a] == if Open(alerts[a], subject, riskType)
                        then alerts[a].(state := Resolved, version := alerts[a].version + 1)
                        else alerts[a])
      && count == |OpenAlerts(alerts, subject, riskType)|
  {
    ClosesOpen(alerts, subject, riskType);
    CountsOpen(alerts, subject, riskType);
  }

  // ----- an alert's state over a run

  /** The state an action moves a stored alert to. */
  function Moved(digest: string -> string, row: Alert, id: nat, action: Action): AlertState {
    match action
    case DoRecord(c) =>
      if && Closed(row) && c.level != Low && row.dedupKey == DedupKeyOf(digest, c)
         && (row.fingerprint != c.fingerprint || row.severity != c.level)
      then New else row.state
    case DoTransition(target, version, state, reason) =>
      if && target == id && version == row.version && (row.state, state) in MOVES
         && (state == Dismissed ==> reason != None && reason != Some(""))
      then state else row.state
    case DoResolve(subject, riskType) =>
      if Open(row, subject, riskType) then Resolved else row.state
  }

  /** Over every run, an alert's state changes in exactly three ways: a closed alert is reopened by a
      recording above LOW of its key with another fingerprint or level, an expected version is moved
      along the table by a manager, and an open one is closed by a resolution of its subject and
      type. Whoever moves it raises its version, and its subject, type and key never change. */
  lemma StateMovesExactly(digest: string -> string, start: System, actions: seq<Action>, action: Action, id: nat)
    requires Initial(start) && id < |Run(digest, start, actions).board.alerts|
    ensures
      var s := Run(digest, start, actions);
      var before, alerts := s.board.alerts[id], Apply(digest, s, action).board.alerts;
      && id < |alerts|
      && alerts[id].state == Moved(digest, before, id, action)
      && (alerts[id].state != before.state ==> alerts[id].version == before.version + 1)
      && alerts[id].subject == before.subject
      && alerts[id].riskType == before.riskType
      && alerts[id].dedupKey == before.dedupKey
  {
    var s := Run(digest, start, actions);
    match action
    case DoRecord(c) =>
      RunKeepsInv(digest, start, actions);
      RecordedStateMoves(digest, s, c, id);
    case DoTransition(target, version, state, reason) => TransitionsExactly(s.board, target, version, state, reason);
    case DoResolve(subject, riskType) => ResolvesExactly(s.board.alerts, subject, riskType);
  }

  lemma RecordedStateMoves(digest: string -> string, s: System, c: RiskCommand, id: nat)
    requires Inv(s) && id < |s.board.alerts|
    ensures
      var before, alerts := s.board.alerts[id], RecordStep(digest, s, c).board.alerts;
      && id < |alerts|
      && alerts[id] == before.(state := Moved(digest, before, id, DoRecord(c)), version := alerts[id].version,
                               severity := alerts[id].severity, fingerprint := alerts[id].fingerprint,
                               lastNotifiedAt := alerts[id].lastNotifiedAt)
      && (alerts[id].state != before.state ==> alerts[id].version == before.version + 1)
  {
    var row := s.board.alerts[id];
    if c.level != Low && row.dedupKey == DedupKeyOf(digest, c) {
      KeyIsFound(digest, s, c, id);
      if row.fingerprint != c.fingerprint || row.severity != c.level { RewritesExactly(digest, s, c, id); }
    }
  }
}
