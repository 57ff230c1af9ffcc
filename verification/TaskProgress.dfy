/** Task progress: the differ that derives events from two observations of an issue, and the
    recorder that keeps current states, snapshots and an event log, one batch per transaction. */
module TaskProgress {
  import opened Wrappers

  /** `localDate` is the calendar day of the capture in the work week's time zone, counted from
      Monday 1 January of year 1 as day 1. */
  datatype Observation = Observation(
    projectKey: string,
    issueKey: string,
    assignee: Option<string>,
    capturedAt: int,
    localDate: int,
    jiraUpdatedAt: int,
    status: string,
    original: Option<real>,
    remaining: Option<real>,
    spent: Option<real>,
    dueDate: Option<int>,
    priority: Option<string>,
    blocked: bool,
    blockers: seq<string>)

  datatype Canonical = Canonical(
    projectKey: string,
    issueKey: string,
    assignee: Option<string>,
    status: string,
    original: Option<real>,
    remaining: Option<real>,
    spent: Option<real>,
    dueDate: Option<int>,
    priority: Option<string>,
    blocked: bool,
    blockers: set<string>)

  function KeySet(keys: seq<string>): set<string> {
    set key | key in keys
  }

  function CanonicalState(o: Observation): Canonical {
    Canonical(o.projectKey, o.issueKey, o.assignee, o.status, o.original, o.remaining, o.spent,
              o.dueDate, o.priority, o.blocked, KeySet(o.blockers))
  }

  type Key = (string, string)

  function KeyOf(o: Observation): Key {
    (o.projectKey, o.issueKey)
  }

  // ----- derived events

  datatype EventType =
    | RemainingEstimateChanged
    | WorkLogged
    | TimeSpentCorrected
    | StatusChanged
    | OriginalEstimateChanged
    | DueDateChanged
    | PriorityChanged
    | AssigneeChanged
    | BlockerAdded
    | BlockerRemoved
    | TaskCompleted

  datatype Value = Null | Hours(hours: real) | Text(text: string) | Day(day: int) | Keys(keys: set<string>)

  datatype ProgressEvent = ProgressEvent(eventType: EventType, oldValue: Value, newValue: Value, structured: bool)

  function HoursValue(hours: Option<real>): Value {
    if hours.None? then Null else Hours(hours.value)
  }

  function TextValue(text: Option<string>): Value {
    if text.None? then Null else Text(text.value)
  }

  function DayValue(day: Option<int>): Value {
    if day.None? then Null else Day(day.value)
  }

  function Changed(eventType: EventType, before: Value, after: Value, structured: bool): seq<ProgressEvent> {
    if before != after then [ProgressEvent(eventType, before, after, structured)] else []
  }

  predicate Fell(before: Option<real>, after: Option<real>) {
    before.Some? && after.Some? && after.value < before.value
  }

  predicate SpentRose(before: Option<real>, after: Option<real>) {
    after.Some? && (before.None? || before.value < after.value)
  }

  function BlockerEvents(previous: Observation, current: Observation): seq<ProgressEvent> {
    var before, after := KeySet(previous.blockers), KeySet(current.blockers);
    (if (!previous.blocked && current.blocked) || after - before != {}
     then [ProgressEvent(BlockerAdded, Keys(before), Keys(after), false)] else [])
    + (if (previous.blocked && !current.blocked) || before - after != {}
       then [ProgressEvent(BlockerRemoved, Keys(before), Keys(after), false)] else [])
  }

  function CompletionEvents(completed: string -> bool, previous: Observation, current: Observation)
    : seq<ProgressEvent>
  {
    if !completed(previous.status) && completed(current.status)
    then [ProgressEvent(TaskCompleted, Text(previous.status), Text(current.status), true)] else []
  }

  function EffortEvents(previous: Observation, current: Observation): seq<ProgressEvent> {
    Changed(RemainingEstimateChanged, HoursValue(previous.remaining), HoursValue(current.remaining),
            Fell(previous.remaining, current.remaining))
    + Changed(if SpentRose(previous.spent, current.spent) then WorkLogged else TimeSpentCorrected,
              HoursValue(previous.spent), HoursValue(current.spent), SpentRose(previous.spent, current.spent))
    + Changed(StatusChanged, Text(previous.status), Text(current.status), true)
  }

  function PlanEvents(previous: Observation, current: Observation): seq<ProgressEvent> {
    Changed(OriginalEstimateChanged, HoursValue(previous.original), HoursValue(current.original), false)
    + Changed(DueDateChanged, DayValue(previous.dueDate), DayValue(current.dueDate), false)
    + Changed(PriorityChanged, TextValue(previous.priority), TextValue(current.priority), false)
    + Changed(AssigneeChanged, TextValue(previous.assignee), TextValue(current.assignee), false)
  }

  /** `completed` tells the statuses that fold to done, closed or resolved. */
  function Derive(completed: string -> bool, previous: Observation, current: Observation): seq<ProgressEvent> {
    EffortEvents(previous, current) + PlanEvents(previous, current)
    + BlockerEvents(previous, current) + CompletionEvents(completed, previous, current)
  }

  method DeriveProgressEvents(completed: string -> bool, previous: Observation, current: Observation)
    returns (events: seq<ProgressEvent>)
    ensures events == Derive(completed, previous, current)
    ensures forall event :: event in events <==> Due(event, completed, previous, current)
  {
    var progress := previous.remaining.Some? && current.remaining.Some?
                    && current.remaining.value < previous.remaining.value;
    events := Changed(RemainingEstimateChanged, HoursValue(previous.remaining), HoursValue(current.remaining),
                      progress);
    if previous.spent != current.spent {
      var increased := (previous.spent.Some? && current.spent.Some? && current.spent.value > previous.spent.value)
                       || (previous.spent.None? && current.spent.Some?);
      events := events + [ProgressEvent(if increased then WorkLogged else TimeSpentCorrected,
                                        HoursValue(previous.spent), HoursValue(current.spent), increased)];
    }
    events := events + Changed(StatusChanged, Text(previous.status), Text(current.status), true);
    assert events == EffortEvents(previous, current);
    events := events + PlanEvents(previous, current);
    var before, after := KeySet(previous.blockers), KeySet(current.blockers);
    ghost var soFar := events;
    if (!previous.blocked && current.blocked) || after - before != {} {
      events := events + [ProgressEvent(BlockerAdded, Keys(before), Keys(after), false)];
    }
    if (previous.blocked && !current.blocked) || before - after != {} {
      events := events + [ProgressEvent(BlockerRemoved, Keys(before), Keys(after), false)];
    }
    assert events == soFar + BlockerEvents(previous, current);
    if !completed(previous.status) && completed(current.status) {
      events := events + [ProgressEvent(TaskCompleted, Text(previous.status), Text(current.status), true)];
    }
    assert events == Derive(completed, previous, current);
    forall event
      ensures event in events <==> Due(event, completed, previous, current)
    {
      DerivedExactly(completed, previous, current, event);
    }
  }

  /** For two observations of one issue, no event is derived exactly when nothing changed. */
  lemma EmptyIffUnchanged(completed: string -> bool, previous: Observation, current: Observation)
    requires KeyOf(previous) == KeyOf(current)
    ensures Derive(completed, previous, current) == [] <==> CanonicalState(previous) == CanonicalState(current)
  {
  }

  // ----- which events are due, on the observations alone

  predicate HoursChange(event: ProgressEvent, before: Option<real>, after: Option<real>) {
    && event.oldValue == (match before case None => Null case Some(hours) => Hours(hours))
    && event.newValue == (match after case None => Null case Some(hours) => Hours(hours))
  }

  predicate TextChange(event: ProgressEvent, before: Option<string>, after: Option<string>) {
    && event.oldValue == (match before case None => Null case Some(text) => Text(text))
    && event.newValue == (match after case None => Null case Some(text) => Text(text))
  }

  predicate KeysChange(event: ProgressEvent, before: seq<string>, after: seq<string>) {
    && event.oldValue == Keys(set key | key in before)
    && event.newValue == Keys(set key | key in after)
  }

  /** What a change of the logged effort calls for: an estimate that fell and hours that rose, or
      appeared, are progress; a change of status always is. */
  predicate EffortDue(event: ProgressEvent, previous: Observation, current: Observation) {
    match event.eventType
    case RemainingEstimateChanged =>
      && previous.remaining != current.remaining
      && HoursChange(event, previous.remaining, current.remaining)
      && (event.structured <==>
            previous.remaining.Some? && current.remaining.Some? && current.remaining.value < previous.remaining.value)
    case WorkLogged =>
      && current.spent.Some? && (previous.spent.None? || previous.spent.value < current.spent.value)
      && HoursChange(event, previous.spent, current.spent)
      && event.structured
    case TimeSpentCorrected =>
      && previous.spent.Some? && (current.spent.None? || current.spent.value < previous.spent.value)
      && HoursChange(event, previous.spent, current.spent)
      && !event.structured
    case StatusChanged =>
      && previous.status != current.status
      && TextChange(event, Some(previous.status), Some(current.status))
      && event.structured
    case _ => false
  }

  predicate PlanDue(event: ProgressEvent, previous: Observation, current: Observation) {
    && !event.structured
    && match event.eventType
       case OriginalEstimateChanged =>
         previous.original != current.original && HoursChange(event, previous.original, current.original)
       case DueDateChanged =>
         && previous.dueDate != current.dueDate
         && event.oldValue == (match previous.dueDate case None => Null case Some(day) => Day(day))
         && event.newValue == (match current.dueDate case None => Null case Some(day) => Day(day))
       case PriorityChanged =>
         previous.priority != current.priority && TextChange(event, previous.priority, current.priority)
       case AssigneeChanged =>
         previous.assignee != current.assignee && TextChange(event, previous.assignee, current.assignee)
       case _ => false
  }

  predicate BlockerDue(event: ProgressEvent, previous: Observation, current: Observation) {
    && !event.structured
    && KeysChange(event, previous.blockers, current.blockers)
    && match event.eventType
       case BlockerAdded =>
         || (!previous.blocked && current.blocked)
         || exists key :: key in current.blockers && key !in previous.blockers
       case BlockerRemoved =>
         || (previous.blocked && !current.blocked)
         || exists key :: key in previous.blockers && key !in current.blockers
       case _ => false
  }

  predicate CompletionDue(event: ProgressEvent, completed: string -> bool,
                          previous: Observation, current: Observation) {
    && event == ProgressEvent(TaskCompleted, Text(previous.status), Text(current.status), true)
    && !completed(previous.status) && completed(current.status)
  }

  predicate Due(event: ProgressEvent, completed: string -> bool, previous: Observation, current: Observation) {
    || EffortDue(event, previous, current)
    || PlanDue(event, previous, current)
    || BlockerDue(event, previous, current)
    || CompletionDue(event, completed, previous, current)
  }

  lemma EffortExactly(previous: Observation, current: Observation, event: ProgressEvent)
    ensures event in EffortEvents(previous, current) <==> EffortDue(event, previous, current)
  {
  }

  lemma PlanExactly(previous: Observation, current: Observation, event: ProgressEvent)
    ensures event in PlanEvents(previous, current) <==> PlanDue(event, previous, current)
  {
  }

  lemma BlockersExactly(previous: Observation, current: Observation, event: ProgressEvent)
    ensures event in BlockerEvents(previous, current) <==> BlockerDue(event, previous, current)
  {
    var before, after := KeySet(previous.blockers), KeySet(current.blockers);
    assert after - before != {} <==> exists key :: key in current.blockers && key !in previous.blockers by {
      if key :| key in current.blockers && key !in previous.blockers { assert key in after - before; }
    }
    assert before - after != {} <==> exists key :: key in previous.blockers && key !in current.blockers by {
      if key :| key in previous.blockers && key !in current.blockers { assert key in before - after; }
    }
  }

  /** Every event is derived exactly when it is due, with the values and the progress flag it is
      due with. */
  lemma DerivedExactly(completed: string -> bool, previous: Observation, current: Observation, event: ProgressEvent)
    ensures event in Derive(completed, previous, current) <==> Due(event, completed, previous, current)
  {
    EffortExactly(previous, current, event);
    PlanExactly(previous, current, event);
    BlockersExactly(previous, current, event);
  }

  /** The status moved, the remaining estimate fell, or hours were logged. */
  predicate Progresses(previous: Observation, current: Observation) {
    || previous.status != current.status
    || (previous.remaining.Some? && current.remaining.Some? && current.remaining.value < previous.remaining.value)
    || (current.spent.Some? && (previous.spent.None? || previous.spent.value < current.spent.value))
  }

  /** Structured progress is derived exactly when there was some. */
  lemma ProgressExactly(completed: string -> bool, previous: Observation, current: Observation)
    ensures (exists event :: event in Derive(completed, previous, current) && event.structured)
       <==> Progresses(previous, current)
  {
    forall event | event in Derive(completed, previous, current) && event.structured
      ensures Progresses(previous, current)
    {
      DerivedExactly(completed, previous, current, event);
    }
    if Progresses(previous, current) {
      var event := ProgressOf(previous, current);
      DerivedExactly(completed, previous, current, event);
    }
  }

  function ProgressOf(previous: Observation, current: Observation): ProgressEvent
    requires Progresses(previous, current)
  {
    if previous.status != current.status
    then ProgressEvent(StatusChanged, Text(previous.status), Text(current.status), true)
    else if previous.remaining.Some? && current.remaining.Some? && current.remaining.value < previous.remaining.value
    then ProgressEvent(RemainingEstimateChanged, Hours(previous.remaining.value), Hours(current.remaining.value), true)
    else ProgressEvent(WorkLogged, match previous.spent case None => Null case Some(hours) => Hours(hours),
                       Hours(current.spent.value), true)
  }

  // ----- replay

  function HoursOf(value: Value): Option<real> {
    if value.Hours? then Some(value.hours) else None
  }

  function TextOf(value: Value): Option<string> {
    if value.Text? then Some(value.text) else None
  }

  function DayOf(value: Value): Option<int> {
    if value.Day? then Some(value.day) else None
  }

  /** An event read back: the field it names takes its new value. */
  function ApplyEvent(state: Canonical, event: ProgressEvent): Canonical {
    match event.eventType
    case RemainingEstimateChanged => state.(remaining := HoursOf(event.newValue))
    case WorkLogged => state.(spent := HoursOf(event.newValue))
    case TimeSpentCorrected => state.(spent := HoursOf(event.newValue))
    case StatusChanged => if event.newValue.Text? then state.(status := event.newValue.text) else state
    case OriginalEstimateChanged => state.(original := HoursOf(event.newValue))
    case DueDateChanged => state.(dueDate := DayOf(event.newValue))
    case PriorityChanged => state.(priority := TextOf(event.newValue))
    case AssigneeChanged => state.(assignee := TextOf(event.newValue))
    case BlockerAdded => if event.newValue.Keys? then state.(blockers := event.newValue.keys) else state
    case BlockerRemoved => if event.newValue.Keys? then state.(blockers := event.newValue.keys) else state
    case TaskCompleted => state
  }

  function Replay(state: Canonical, events: seq<ProgressEvent>): Canonical {
    if events == [] then state
    else ApplyEvent(Replay(state, events[..|events| - 1]), events[|events| - 1])
  }

  /** Everything but the `blocked` flag. */
  function Strip(state: Canonical): Canonical {
    state.(blocked := false)
  }

  lemma {:induction false} ReplayAppend(state: Canonical, a: seq<ProgressEvent>, b: seq<ProgressEvent>)
    ensures Replay(state, a + b) == Replay(Replay(state, a), b)
  {
    if b == [] {
      assert a + b == a;
    } else {
      assert (a + b)[..|a + b| - 1] == a + b[..|b| - 1];
      ReplayAppend(state, a, b[..|b| - 1]);
    }
  }

  lemma ReplayBlockers(state: Canonical, previous: Observation, current: Observation)
    requires state.blockers == KeySet(previous.blockers)
    ensures Replay(state, BlockerEvents(previous, current)) == state.(blockers := KeySet(current.blockers))
  {
    var before, after := KeySet(previous.blockers), KeySet(current.blockers);
    var added := if (!previous.blocked && current.blocked) || after - before != {}
                 then [ProgressEvent(BlockerAdded, Keys(before), Keys(after), false)] else [];
    var removed := if (previous.blocked && !current.blocked) || before - after != {}
                   then [ProgressEvent(BlockerRemoved, Keys(before), Keys(after), false)] else [];
    ReplayAppend(state, added, removed);
    assert forall one: ProgressEvent :: [one][..0] == [];
    if added == [] && removed == [] {
      assert forall key :: key !in after - before && key !in before - after;
      assert before == after;
    }
  }

  lemma ReplayRemaining(state: Canonical, before: Option<real>, after: Option<real>, structured: bool)
    requires state.remaining == before
    ensures Replay(state, Changed(RemainingEstimateChanged, HoursValue(before), HoursValue(after), structured))
         == state.(remaining := after)
  {
  }

  lemma ReplaySpent(state: Canonical, eventType: EventType, before: Option<real>, after: Option<real>, structured: bool)
    requires eventType == WorkLogged || eventType == TimeSpentCorrected
    requires state.spent == before
    ensures Replay(state, Changed(eventType, HoursValue(before), HoursValue(after), structured))
       == state.(spent := after)
  {
  }

  lemma ReplayStatus(state: Canonical, before: string, after: string)
    requires state.status == before
    ensures Replay(state, Changed(StatusChanged, Text(before), Text(after), true)) == state.(status := after)
  {
  }

  lemma ReplayEffort(state: Canonical, previous: Observation, current: Observation)
    requires state.remaining == previous.remaining && state.spent == previous.spent && state.status == previous.status
    ensures Replay(state, EffortEvents(previous, current))
         == state.(remaining := current.remaining, spent := current.spent, status := current.status)
  {
    var fell, rose := Fell(previous.remaining, current.remaining), SpentRose(previous.spent, current.spent);
    var spentType := if rose then WorkLogged else TimeSpentCorrected;
    var e1 := Changed(RemainingEstimateChanged, HoursValue(previous.remaining), HoursValue(current.remaining), fell);
    var e2 := Changed(spentType, HoursValue(previous.spent), HoursValue(current.spent), rose);
    var e3 := Changed(StatusChanged, Text(previous.status), Text(current.status), true);
    ReplayAppend(state, e1 + e2, e3);
    ReplayAppend(state, e1, e2);
    ReplayRemaining(state, previous.remaining, current.remaining, fell);
    var s1 := state.(remaining := current.remaining);
    ReplaySpent(s1, spentType, previous.spent, current.spent, rose);
    ReplayStatus(s1.(spent := current.spent), previous.status, current.status);
  }

  lemma ReplayOriginal(state: Canonical, before: Option<real>, after: Option<real>)
    requires state.original == before
    ensures Replay(state, Changed(OriginalEstimateChanged, HoursValue(before), HoursValue(after), false))
         == state.(original := after)
  {
  }

  lemma ReplayDueDate(state: Canonical, before: Option<int>, after: Option<int>)
    requires state.dueDate == before
    ensures Replay(state, Changed(DueDateChanged, DayValue(before), DayValue(after), false)) == state.(dueDate := after)
  {
  }

  lemma ReplayPriority(state: Canonical, before: Option<string>, after: Option<string>)
    requires state.priority == before
    ensures Replay(state, Changed(PriorityChanged, TextValue(before), TextValue(after), false))
       == state.(priority := after)
  {
  }

  lemma ReplayAssignee(state: Canonical, before: Option<string>, after: Option<string>)
    requires state.assignee == before
    ensures Replay(state, Changed(AssigneeChanged, TextValue(before), TextValue(after), false))
       == state.(assignee := after)
  {
  }

  lemma ReplayPlan(state: Canonical, previous: Observation, current: Observation)
    requires state.original == previous.original && state.dueDate == previous.dueDate
    requires state.priority == previous.priority && state.assignee == previous.assignee
    ensures Replay(state, PlanEvents(previous, current))
         == state.(original := current.original, dueDate := current.dueDate,
                   priority := current.priority, assignee := current.assignee)
  {
    var e4 := Changed(OriginalEstimateChanged, HoursValue(previous.original), HoursValue(current.original), false);
    var e5 := Changed(DueDateChanged, DayValue(previous.dueDate), DayValue(current.dueDate), false);
    var e6 := Changed(PriorityChanged, TextValue(previous.priority), TextValue(current.priority), false);
    var e7 := Changed(AssigneeChanged, TextValue(previous.assignee), TextValue(current.assignee), false);
    ReplayAppend(state, e4 + e5 + e6, e7);
    ReplayAppend(state, e4 + e5, e6);
    ReplayAppend(state, e4, e5);
    ReplayOriginal(state, previous.original, current.original);
    var s1 := state.(original := current.original);
    ReplayDueDate(s1, previous.dueDate, current.dueDate);
    var s2 := s1.(dueDate := current.dueDate);
    ReplayPriority(s2, previous.priority, current.priority);
    ReplayAssignee(s2.(priority := current.priority), previous.assignee, current.assignee);
  }

  /** Replaying what was derived takes the previous state to the current one, `blocked` apart. */
  lemma DeriveReplays(completed: string -> bool, previous: Observation, current: Observation)
    requires KeyOf(previous) == KeyOf(current)
    ensures Replay(Strip(CanonicalState(previous)), Derive(completed, previous, current))
       == Strip(CanonicalState(current))
  {
    var state := Strip(CanonicalState(previous));
    var effort, plan := EffortEvents(previous, current), PlanEvents(previous, current);
    var blockers, completion := BlockerEvents(previous, current), CompletionEvents(completed, previous, current);
    ReplayAppend(state, effort + plan + blockers, completion);
    ReplayAppend(state, effort + plan, blockers);
    ReplayAppend(state, effort, plan);
    ReplayEffort(state, previous, current);
    var s1 := Replay(state, effort);
    ReplayPlan(s1, previous, current);
    var s2 := Replay(s1, plan);
    ReplayBlockers(s2, previous, current);
    ReplayCompletion(Replay(s2, blockers), completed, previous, current);
  }

  lemma ReplayCompletion(state: Canonical, completed: string -> bool, previous: Observation, current: Observation)
    ensures Replay(state, CompletionEvents(completed, previous, current)) == state
  {
  }

  /** Exactly when the events leave `blocked` open: the same history fits both values if and only
      if a blocker left an issue that was blocked, or one came to an issue that was not. */
  lemma BlockedIsLostExactly(completed: string -> bool, previous: Observation, current: Observation)
    ensures
      var before, after := KeySet(previous.blockers), KeySet(current.blockers);
      Derive(completed, previous, current) == Derive(completed, previous, current.(blocked := !current.blocked)) <==>
        if previous.blocked then before - after != {} else after - before != {}
  {
  }

}
