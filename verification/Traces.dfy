/**
  Runs of the queue. A trace is the list of operations applied to a fresh
  queue, the latest outermost; a reachable state is `After` some trace. The
  manager's `run` and `select` are sequences of pops, so they need no
  operation of their own. The other functions read the history of a run off
  its trace.
 */
module Traces {
  import opened StdAir
  import opened QueueModel

  datatype Op =
    | Add(event: EventStruct)
    | Pop
    | AddCount(kind: EventType, amount: real)
    | UpdateCount(kind: EventType, amount: real)
    | ResetAll(zeroActual: bool)

  datatype Trace = Fresh | Then(prev: Trace, op: Op)

  ghost function Apply(s: State, op: Op): State {
    match op
    case Add(event) => AddEvent(s, event)
    case Pop => PopEvent(s)
    case AddCount(kind, amount) => AddStatus(s, kind, amount)
    case UpdateCount(kind, amount) => UpdateStatus(s, kind, amount)
    case ResetAll(zeroActual) => Reset(s, zeroActual)
  }

  // Who entered, who waits and who has left since the last reset

  /** One call of addEvent: its rank since the last reset, the stamp that the
      event asked for, and the event as stored. */
  datatype Arrival = Arrival(ticket: nat, requested: int, event: EventStruct)

  /** The state, all arrivals, those still queued in the order of the queue, and
      those already popped in the order of the pops. */
  datatype History =
    History(state: State, arrivals: seq<Arrival>, queued: seq<Arrival>, departed: seq<Arrival>)

  /** The queued arrivals are those of the state's events, in their order. */
  ghost predicate Coherent(h: History) {
    && Sorted(h.state.events)
    && |h.queued| == |h.state.events|
    && forall i :: 0 <= i < |h.queued| ==> h.queued[i].event == h.state.events[i]
  }

  ghost function ArrivalOf(h: History, event: EventStruct): Arrival {
    Arrival(|h.arrivals|, event.stamp, Placed(h.state, event))
  }

  ghost function Step(h: History, op: Op): History
    requires Coherent(h)
  {
    var state := Apply(h.state, op);
    match op
    case Add(event) =>
      var arrival := ArrivalOf(h, event);
      History(state, h.arrivals + [arrival],
              InsertAt(h.queued, Position(h.state.events, arrival.event.stamp), arrival), h.departed)
    case Pop =>
      if h.queued == [] then h.(state := state)
      else History(state, h.arrivals, h.queued[1..], h.departed + [h.queued[0]])
    case ResetAll(_) => History(state, [], [], [])
    case AddCount(_, _) => h.(state := state)
    case UpdateCount(_, _) => h.(state := state)
  }

  lemma StepKeepsCoherent(h: History, op: Op)
    requires Coherent(h)
    ensures Coherent(Step(h, op))
  {
    if op.Add? {
      var arrival := ArrivalOf(h, op.event);
      SortedInsert(h.state.events, arrival.event);
      InsertBoth(h.state.events, h.queued, Position(h.state.events, arrival.event.stamp), arrival);
    }
  }

  lemma InsertBoth(events: seq<EventStruct>, queued: seq<Arrival>, p: nat, arrival: Arrival)
    requires p <= |queued| == |events|
    requires forall i :: 0 <= i < |queued| ==> queued[i].event == events[i]
    ensures
      var events' := InsertAt(events, p, arrival.event);
      var queued' := InsertAt(queued, p, arrival);
      |queued'| == |events'| && forall i :: 0 <= i < |queued'| ==> queued'[i].event == events'[i]
  {
  }

  ghost function Past(tr: Trace): (h: History)
    ensures Coherent(h)
  {
    match tr
    case Fresh => History(FRESH, [], [], [])
    case Then(prev, op) => StepKeepsCoherent(Past(prev), op); Step(Past(prev), op)
  }

  ghost function After(tr: Trace): State { Past(tr).state }

  ghost function Arrivals(tr: Trace): seq<Arrival> { Past(tr).arrivals }

  ghost function Queued(tr: Trace): seq<Arrival> { Past(tr).queued }

  ghost function Departed(tr: Trace): seq<Arrival> { Past(tr).departed }

  /** The trace followed by `n` pops. */
  function Pops(tr: Trace, n: nat): Trace {
    if n == 0 then tr else Then(Pops(tr, n - 1), Pop)
  }

  ghost predicate Above(departed: seq<Arrival>, stamp: int) {
    forall d :: d in departed ==> d.event.stamp < stamp
  }

  /** The stamp lies above every stamp popped since the last reset. */
  ghost predicate AbovePopped(tr: Trace, stamp: int) {
    Above(Departed(tr), stamp)
  }

  /** No event is added at or below a stamp that has already been popped. */
  ghost predicate Causal(tr: Trace) {
    match tr
    case Fresh => true
    case Then(prev, op) => Causal(prev) && (op.Add? ==> AbovePopped(prev, op.event.stamp))
  }

  /** Every event enters with its date-time, in milliseconds, as its stamp. */
  ghost predicate OnTime(tr: Trace) {
    match tr
    case Fresh => true
    case Then(prev, op) =>
      OnTime(prev) && (op.Add? ==> op.event.stamp == TotalMilliseconds(op.event.time))
  }

  /** Whether a status has been added for the type. */
  predicate HasStatus(tr: Trace, kind: EventType) {
    match tr
    case Fresh => false
    case Then(prev, op) => HasStatus(prev, kind) || (op.AddCount? && op.kind == kind)
  }

  lemma {:induction false} HasStatusIsTracked(tr: Trace, kind: EventType)
    ensures HasStatus(tr, kind) <==> kind in After(tr).statuses
  {
    if tr.Then? {
      HasStatusIsTracked(tr.prev, kind);
      TrackedAfter(After(tr.prev), tr.op, kind);
    }
  }

  lemma TrackedAfter(s: State, op: Op, kind: EventType)
    ensures kind in Apply(s, op).statuses <==> kind in s.statuses || (op.AddCount? && op.kind == kind)
  {
  }
}
