/** Alert rules and the alert repository: deduplicated alerts with versions and occurrences, and
    the notifications they queue. */
module AlertBoard {
  import opened Wrappers
  import opened RiskModels

  // ----- rules

  datatype AlertState = New | Acknowledged | Investigating | Resolved | Dismissed

  function AllowedTransitions(state: AlertState): set<AlertState> {
    match state
    case New => {Acknowledged, Investigating, Resolved, Dismissed}
    case Acknowledged => {Investigating, Resolved, Dismissed}
    case Investigating => {Resolved, Dismissed}
    case Resolved => {New}
    case Dismissed => {New}
  }

  datatype AlertRouting = AlertRouting(createInboxAlert: bool, sendEmail: bool, prominent: bool)

  function RouteRisk(level: Option<RiskLevel>): AlertRouting {
    match level
    case Some(Critical) => AlertRouting(true, true, true)
    case Some(High) => AlertRouting(true, true, false)
    case Some(Medium) => AlertRouting(true, false, false)
    case _ => AlertRouting(false, false, false)
  }

  function ShouldNotify(previous: Option<RiskLevel>, current: RiskLevel, lastNotifiedAt: Option<int>,
                        now: int, cooldown: int, important: bool): bool {
    if !RouteRisk(Some(current)).sendEmail then false
    else if previous.None? || LevelRank(current) > LevelRank(previous.value) then true
    else if important then true
    else lastNotifiedAt.None? || now - lastNotifiedAt.value >= cooldown
  }

  /** The material of a deduplication key is the joined string. */
  function DedupMaterial(subject: string, riskType: string, window: string): string {
    subject + ":" + riskType + ":" + window
  }

  /** A colon inside a part makes the join ambiguous: different parts, one key. */
  lemma JoinIsAmbiguous(a: string, b: string, c: string, d: string)
    ensures DedupMaterial(a + ":" + b, c, d) == DedupMaterial(a, b + ":" + c, d)
  {
  }

  function FirstColon(text: string): nat {
    if text == "" || text[0] == ':' then 0 else 1 + FirstColon(text[1..])
  }

  lemma {:induction false} ColonAfter(head: string, tail: string)
    requires ':' !in head
    ensures FirstColon(head + ":" + tail) == |head|
  {
    if head == "" {
    } else {
      assert head[0] in head;
      assert (head + ":" + tail)[1..] == head[1..] + ":" + tail;
      ColonAfter(head[1..], tail);
    }
  }

  lemma SplitAtColon(a: string, b: string, restA: string, restB: string)
    requires ':' !in a && ':' !in b && a + ":" + restA == b + ":" + restB
    ensures a == b && restA == restB
  {
    var joined := a + ":" + restA;
    ColonAfter(a, restA);
    ColonAfter(b, restB);
    assert a == joined[..|a|] && b == joined[..|b|];
    assert restA == joined[|a| + 1..] && restB == joined[|b| + 1..];
  }

  /** Without a colon in the subject and the type, the window free, the join tells all parts. */
  lemma JoinIsUniqueWithoutColons(subjectA: string, typeA: string, windowA: string,
                                  subjectB: string, typeB: string, windowB: string)
    requires ':' !in subjectA && ':' !in typeA && ':' !in subjectB && ':' !in typeB
    ensures DedupMaterial(subjectA, typeA, windowA) == DedupMaterial(subjectB, typeB, windowB) <==>
              subjectA == subjectB && typeA == typeB && windowA == windowB
  {
    if DedupMaterial(subjectA, typeA, windowA) == DedupMaterial(subjectB, typeB, windowB) {
      assert DedupMaterial(subjectA, typeA, windowA) == subjectA + ":" + (typeA + ":" + windowA);
      assert DedupMaterial(subjectB, typeB, windowB) == subjectB + ":" + (typeB + ":" + windowB);
      SplitAtColon(subjectA, subjectB, typeA + ":" + windowA, typeB + ":" + windowB);
      SplitAtColon(typeA, typeB, windowA, windowB);
    }
  }

  // ----- rows

  datatype Alert = Alert(
    subject: string,
    riskType: string,
    dedupKey: string,
    state: AlertState,
    severity: RiskLevel,
    fingerprint: string,
    lastNotifiedAt: Option<int>,
    version: nat)

  datatype Occurrence = Occurrence(alertId: nat, sequenceNumber: nat, severity: RiskLevel, fingerprint: string)

  /** The consumer key of a queued notification. */
  datatype NotificationKey = NotificationKey(alertId: nat, version: nat)

  datatype Board = Board(alerts: seq<Alert>, occurrences: seq<Occurrence>, outbox: seq<NotificationKey>)

  const EMPTY: Board := Board([], [], [])

  datatype RiskCommand = RiskCommand(
    subject: string,
    riskType: string,
    window: string,
    level: RiskLevel,
    fingerprint: string,
    now: int,
    cooldown: int,
    important: bool)

  datatype RecordResult = RecordResult(alertId: nat, occurrenceCreated: bool, notificationCreated: bool, version: nat)

  function FindAlert(alerts: seq<Alert>, dedupKey: string): (found: Option<nat>)
    ensures found.Some? ==> found.value < |alerts| && alerts[found.value].dedupKey == dedupKey
    ensures found.None? ==> forall i | 0 <= i < |alerts| :: alerts[i].dedupKey != dedupKey
  {
    if alerts == [] then None
    else
      var last := |alerts| - 1;
      match FindAlert(alerts[..last], dedupKey)
      case Some(i) => Some(i)
      case None => if alerts[last].dedupKey == dedupKey then Some(last) else None
  }

  function OccurrenceCount(occurrences: seq<Occurrence>, id: nat): nat {
    if occurrences == [] then 0
    else
      var last := |occurrences| - 1;
      OccurrenceCount(occurrences[..last], id) + if occurrences[last].alertId == id then 1 else 0
  }

  // ----- transactions

  function NewAlert(dedupKey: string, c: RiskCommand): Alert {
    Alert(c.subject, c.riskType, dedupKey, New, c.level, c.fingerprint, None, 1)
  }

  function Renewed(alert: Alert, c: RiskCommand): Alert {
    alert.(state := if alert.state in {Resolved, Dismissed} then New else alert.state,
           severity := c.level, fingerprint := c.fingerprint, version := alert.version + 1)
  }

  predicate Repeats(alert: Alert, c: RiskCommand) {
    alert.fingerprint == c.fingerprint && alert.severity == c.level
  }

  /** The common tail: number the occurrence, decide on a notification, queue it once. */
  function Occur(b: Board, id: nat, alert: Alert, previous: Option<RiskLevel>, c: RiskCommand): Board
    requires id <= |b.alerts|
  {
    var notify := ShouldNotify(previous, c.level, alert.lastNotifiedAt, c.now, c.cooldown, c.important);
    var stored := if notify then alert.(lastNotifiedAt := Some(c.now)) else alert;
    var key := NotificationKey(id, alert.version);
    Board(if id < |b.alerts| then b.alerts[id := stored] else b.alerts + [stored],
          b.occurrences + [Occurrence(id, OccurrenceCount(b.occurrences, id) + 1, c.level, c.fingerprint)],
          if notify && key !in b.outbox then b.outbox + [key] else b.outbox)
  }

  /** What a recording comes down to: nothing, or an occurrence of one alert after a severity. */
  datatype Recording =
    | Ignored
    | Repeated(id: nat)
    | Occurred(id: nat, alert: Alert, previous: Option<RiskLevel>)

  function Classify(digest: string -> string, b: Board, c: RiskCommand): (r: Recording)
    ensures r.Repeated? ==> r.id < |b.alerts|
    ensures r.Occurred? ==> r.id <= |b.alerts|
  {
    var dedupKey := digest(DedupMaterial(c.subject, c.riskType, c.window));
    if !RouteRisk(Some(c.level)).createInboxAlert then Ignored
    else
      match FindAlert(b.alerts, dedupKey)
      case None => Occurred(|b.alerts|, NewAlert(dedupKey, c), None)
      case Some(id) =>
        if Repeats(b.alerts[id], c) then Repeated(id)
        else Occurred(id, Renewed(b.alerts[id], c), Some(b.alerts[id].severity))
  }

  function Notifies(r: Recording, c: RiskCommand): bool {
    r.Occurred? && ShouldNotify(r.previous, c.level, r.alert.lastNotifiedAt, c.now, c.cooldown, c.important)
  }

  function RecordTx(digest: string -> string, b: Board, c: RiskCommand): (Board, Option<RecordResult>) {
    var r := Classify(digest, b, c);
    match r
    case Ignored => (b, None)
    case Repeated(id) => (b, Some(RecordResult(id, false, false, b.alerts[id].version)))
    case Occurred(id, alert, previous) =>
      (Occur(b, id, alert, previous, c), Some(RecordResult(id, true, Notifies(r, c), alert.version)))
  }

  datatype TransitionResult = Applied | NotApplied | IllegalTransition | ReasonMissing

  function TransitionTx(b: Board, id: nat, expectedVersion: nat, target: AlertState, reason: Option<string>)
    : (Board, TransitionResult)
  {
    if id >= |b.alerts| || b.alerts[id].version != expectedVersion then (b, NotApplied)
    else
      var alert := b.alerts[id];
      if target !in AllowedTransitions(alert.state) then (b, IllegalTransition)
      else if target == Dismissed && (reason.None? || reason.value == "") then (b, ReasonMissing)
      else (b.(alerts := b.alerts[id := alert.(state := target, version := alert.version + 1)]), Applied)
  }

  predicate Active(alert: Alert, subject: string, riskType: string) {
    alert.subject == subject && alert.riskType == riskType && alert.state in {New, Acknowledged, Investigating}
  }

  function ResolveOne(alert: Alert, subject: string, riskType: string): Alert {
    if Active(alert, subject, riskType) then alert.(state := Resolved, version := alert.version + 1) else alert
  }

  function ResolveActive(alerts: seq<Alert>, subject: string, riskType: string): (seq<Alert>, nat) {
    if alerts == [] then ([], 0)
    else
      var last := |alerts| - 1;
      var (resolved, count) := ResolveActive(alerts[..last], subject, riskType);
      (resolved + [ResolveOne(alerts[last], subject, riskType)],
       count + if Active(alerts[last], subject, riskType) then 1 else 0)
  }

  class AlertRepository {
    const digest: string -> string
    var alerts: seq<Alert>
    var occurrences: seq<Occurrence>
    var outbox: seq<NotificationKey>

    ghost function View(): Board
      reads this
    {
      Board(alerts, occurrences, outbox)
    }

    constructor (digest: string -> string)
      ensures this.digest == digest && View() == EMPTY
    {
      this.digest := digest;
      alerts, occurrences, outbox := [], [], [];
    }

    method RecordRisk(c: RiskCommand) returns (result: Option<RecordResult>)
      modifies this
      ensures (View(), result) == RecordTx(digest, old(View()), c)
    {
      if !RouteRisk(Some(c.level)).createInboxAlert {
        return None;
      }
      var dedupKey := digest(DedupMaterial(c.subject, c.riskType, c.window));
      var found := FindAlert(alerts, dedupKey);
      var previous := None;
      var id, alert;
      if found.None? {
        id, alert := |alerts|, NewAlert(dedupKey, c);
        alerts := alerts + [alert];
      } else {
        id := found.value;
        alert := alerts[id];
        previous := Some(alert.severity);
        if alert.fingerprint == c.fingerprint && previous == Some(c.level) {
          return Some(RecordResult(id, false, false, alert.version));
        }
        if alert.state in {Resolved, Dismissed} {
          alert := alert.(state := New);
        }
        alert := alert.(severity := c.level, fingerprint := c.fingerprint, version := alert.version + 1);
        alerts := alerts[id := alert];
      }
      var count := OccurrenceCount(occurrences, id);
      occurrences := occurrences + [Occurrence(id, count + 1, c.level, c.fingerprint)];
      var notify := ShouldNotify(previous, c.level, alert.lastNotifiedAt, c.now, c.cooldown, c.important);
      if notify {
        if NotificationKey(id, alert.version) !in outbox {
          outbox := outbox + [NotificationKey(id, alert.version)];
        }
        alerts := alerts[id := alert.(lastNotifiedAt := Some(c.now))];
      }
      ghost var stored := if notify then alert.(lastNotifiedAt := Some(c.now)) else alert;
      assert alerts == if id < |old(alerts)| then old(alerts)[id := stored] else old(alerts) + [stored];
      return Some(RecordResult(id, true, notify, alert.version));
    }

    method Transition(id: nat, expectedVersion: nat, target: AlertState, reason: Option<string>)
      returns (result: TransitionResult)
      modifies this
      ensures (View(), result) == TransitionTx(old(View()), id, expectedVersion, target, reason)
    {
      if id >= |alerts| || alerts[id].version != expectedVersion {
        return NotApplied;
      }
      var alert := alerts[id];
      if target !in AllowedTransitions(alert.state) {
        return IllegalTransition;
      }
      if target == Dismissed && (reason.None? || reason.value == "") {
        return ReasonMissing;
      }
      alerts := alerts[id := alert.(state := target, version := alert.version + 1)];
      return Applied;
    }

    method ResolveActiveRisk(subject: string, riskType: string) returns (count: nat)
      modifies this
      ensures (alerts, count) == ResolveActive(old(alerts), subject, riskType)
      ensures occurrences == old(occurrences) && outbox == old(outbox)
    {
      count := 0;
      var before := alerts;
      for i := 0 to |before|
        invariant |alerts| == |before| && alerts[i..] == before[i..]
        invariant (alerts[..i], count) == ResolveActive(before[..i], subject, riskType)
        invariant occurrences == old(occurrences) && outbox == old(outbox)
      {
        assert alerts[i] == before[i] by { assert alerts[i..][0] == before[i..][0]; }
        assert before[..i + 1][..i] == before[..i];
        var earlier := alerts[..i];
        if Active(alerts[i], subject, riskType) {
          alerts := alerts[i := alerts[i].(state := Resolved, version := alerts[i].version + 1)];
          count := count + 1;
        }
        assert alerts[..i + 1] == earlier + [ResolveOne(before[i], subject, riskType)];
      }
      assert before[..|before|] == before && alerts[..|before|] == alerts;
    }
  }
}
