/**
  The event queue as a value, and each of its operations as a function from the
  state before to the state after. The class in EventQueueBom.dfy is proved
  against these functions.
 */
module QueueModel {
  import opened StdAir
  import opened Probing

  /** The queued events in the order of their stamps, the overall status, and
      one status per event type. */
  datatype State = State(
    events: seq<EventStruct>,
    overall: ProgressStatus,
    statuses: map<EventType, ProgressStatus>)

  const FRESH := State([], DEFAULT_PROGRESS_STATUS, map[])

  // The event list

  ghost predicate Sorted(events: seq<EventStruct>) {
    forall i, j :: 0 <= i < j < |events| ==> events[i].stamp < events[j].stamp
  }

  ghost function Stamps(events: seq<EventStruct>): set<int> {
    set e | e in events :: e.stamp
  }

  /** The index at which an event with the given stamp belongs. */
  function Position(events: seq<EventStruct>, stamp: int): (p: nat)
    ensures p <= |events|
    ensures forall i :: 0 <= i < p ==> events[i].stamp < stamp
    ensures p < |events| ==> stamp <= events[p].stamp
  {
    if events == [] || stamp <= events[0].stamp then 0
    else 1 + Position(events[1..], stamp)
  }

  function InsertAt<T>(s: seq<T>, p: nat, x: T): seq<T>
    requires p <= |s|
  {
    s[..p] + [x] + s[p..]
  }

  /** The event as it is stored: moved to the first free stamp. */
  ghost function Placed(s: State, event: EventStruct): EventStruct {
    event.(stamp := FirstFree(Stamps(s.events), event.stamp))
  }

  ghost function AddEvent(s: State, event: EventStruct): State {
    var placed := Placed(s, event);
    s.(events := InsertAt(s.events, Position(s.events, placed.stamp), placed))
  }

  lemma SortedInsert(events: seq<EventStruct>, event: EventStruct)
    requires Sorted(events) && event.stamp !in Stamps(events)
    ensures
      var events' := InsertAt(events, Position(events, event.stamp), event);
      Sorted(events') && Stamps(events') == Stamps(events) + {event.stamp}
  {
    var p := Position(events, event.stamp);
    assert p < |events| ==> events[p] in events;
    SortedInsertAt(events, p, event);
    MembersOfInsert(events, p, event);
  }

  lemma SortedInsertAt(events: seq<EventStruct>, p: nat, event: EventStruct)
    requires Sorted(events) && p <= |events|
    requires forall i :: 0 <= i < p ==> events[i].stamp < event.stamp
    requires p < |events| ==> event.stamp < events[p].stamp
    ensures Sorted(InsertAt(events, p, event))
  {
  }

  lemma MembersOfInsert<T>(s: seq<T>, p: nat, x: T)
    requires p <= |s|
    ensures forall y :: y in InsertAt(s, p, x) <==> y in s || y == x
  {
  }

  lemma SortedTail(events: seq<EventStruct>)
    requires Sorted(events) && events != []
    ensures Sorted(events[1..])
    ensures Stamps(events[1..]) == Stamps(events) - {events[0].stamp}
  {
  }

  /** Removes the event with the smallest stamp, counts it overall, and counts
      it for its type if that type has a status. */
  function PopEvent(s: State): State {
    if s.events == [] then s
    else
      var kind := s.events[0].kind;
      State(
        s.events[1..],
        s.overall.Increment(),
        if kind in s.statuses then s.statuses[kind := s.statuses[kind].Increment()] else s.statuses)
  }

  /** How a pop ends: with a status set, with an exception because the queue is
      empty, or with an exception because the type has no status. */
  datatype PopOutcome =
    | Popped(statusSet: ProgressStatusSet)
    | QueueEmpty
    | NoProgressStatus

  function OutcomeOfPop(s: State): PopOutcome {
    if s.events == [] then QueueEmpty
    else
      var kind := s.events[0].kind;
      if kind !in s.statuses then NoProgressStatus
      else Popped(ProgressStatusSet(kind, s.statuses[kind].Increment(), s.overall.Increment()))
  }

  // The progress statuses

  /** Stores a first status for the type, or takes over its current number and
      adds its expected and actual numbers to those already there. */
  function MergeStatus(statuses: map<EventType, ProgressStatus>, kind: EventType, status: ProgressStatus)
    : map<EventType, ProgressStatus>
  {
    var merged :=
      if kind in statuses then
        ProgressStatus(
          status.current,
          statuses[kind].expected + status.expected,
          statuses[kind].actual + status.actual)
      else status;
    statuses[kind := merged]
  }

  function AddStatus(s: State, kind: EventType, amount: real): State {
    var expected := Truncate(s.overall.expected as real + amount);
    var actual := Truncate(s.overall.actual as real + amount);
    State(
      s.events,
      s.overall.(expected := expected, actual := actual),
      MergeStatus(s.statuses, kind, InitialStatus(amount.Floor)))
  }

  function UpdateStatus(s: State, kind: EventType, amount: real): State {
    if kind in s.statuses then
      var status := s.statuses[kind];
      var delta := amount.Floor - status.actual;
      State(
        s.events,
        s.overall.(actual := s.overall.actual + delta),
        s.statuses[kind := status.(actual := amount.Floor)])
    else s
  }

  function Reset(s: State, zeroActual: bool): State {
    State([], s.overall.Reset(zeroActual), map kind | kind in s.statuses :: s.statuses[kind].Reset(zeroActual))
  }
}
