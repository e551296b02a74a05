/**
  Whole simulations: in one round, where every type announces its number of
  events before they are added and the queue is run dry in any way, and in any
  number of rounds with further announcements and resets in between.
 */
module Simulation {
  import opened StdAir
  import opened QueueModel
  import opened Traces
  import opened Totals
  import opened RunControl
  import opened Accounting

  /** How many events of each type there will be. */
  type Plan = map<EventType, nat>

  /** Each type of the plan is announced at most once, with its planned number,
      and before the first event of the type; apart from that, events are added
      and popped in any order. */
  ghost predicate Simulates(tr: Trace, plan: Plan) {
    match tr
    case Fresh => true
    case Then(prev, op) =>
      && Simulates(prev, plan)
      && match op
         case Add(event) => HasStatus(prev, event.kind)
         case Pop => true
         case AddCount(kind, amount) =>
           !HasStatus(prev, kind) && kind in plan && amount == plan[kind] as real
         case UpdateCount(_, _) => false
         case ResetAll(_) => false
  }

  ghost function AddsOf(tr: Trace, kind: EventType): nat {
    match tr
    case Fresh => 0
    case Then(prev, Add(event)) => AddsOf(prev, kind) + if event.kind == kind then 1 else 0
    case Then(prev, _) => AddsOf(prev, kind)
  }

  /** Every type has been announced, and all of its events have been added. */
  ghost predicate FullyLoaded(tr: Trace, plan: Plan) {
    forall kind :: kind in plan ==> HasStatus(tr, kind) && AddsOf(tr, kind) == plan[kind]
  }

  lemma CountOfInsert(events: seq<EventStruct>, p: nat, event: EventStruct, kind: EventType)
    requires p <= |events|
    ensures CountOf(InsertAt(events, p, event), kind)
            == CountOf(events, kind) + if event.kind == kind then 1 else 0
  {
    CountOfConcat(events[..p] + [event], events[p..], kind);
    CountOfConcat(events[..p], [event], kind);
    CountOfConcat(events[..p], events[p..], kind);
    assert events == events[..p] + events[p..];
  }

  /** An announced type shows the planned numbers, and its events run plus its
      events queued are its events added; nothing is there of other types. */
  ghost predicate Shows(s: State, kind: EventType, announced: bool, planned: int, added: nat) {
    if announced then
      kind in s.statuses
      && s.statuses[kind] == ProgressStatus(added - CountOf(s.events, kind), planned, planned)
    else
      kind !in s.statuses && added == CountOf(s.events, kind) == 0
  }

  function Planned(plan: Plan, kind: EventType): nat {
    if kind in plan then plan[kind] else 0
  }

  /** So it is at every point of a simulation. */
  lemma {:induction false} TypeProgress(tr: Trace, plan: Plan, kind: EventType)
    requires Simulates(tr, plan)
    ensures Shows(After(tr), kind, HasStatus(tr, kind), Planned(plan, kind), AddsOf(tr, kind))
    ensures HasStatus(tr, kind) ==> kind in plan
  {
    if tr.Then? {
      TypeProgress(tr.prev, plan, kind);
      var s := After(tr.prev);
      match tr.op
      case Add(event) =>
        TypeProgress(tr.prev, plan, event.kind);
        ShowsAfterAdd(s, event, kind, HasStatus(tr.prev, kind), Planned(plan, kind), AddsOf(tr.prev, kind));
      case Pop =>
        ShowsAfterPop(s, kind, HasStatus(tr.prev, kind), Planned(plan, kind), AddsOf(tr.prev, kind));
      case AddCount(k, amount) =>
        assert amount.Floor == plan[k];
    }
  }

  lemma ShowsAfterAdd(s: State, event: EventStruct, kind: EventType, announced: bool, planned: int, added: nat)
    requires Shows(s, kind, announced, planned, added) && (event.kind == kind ==> announced)
    ensures Shows(AddEvent(s, event), kind, announced, planned,
                  added + if event.kind == kind then 1 else 0)
  {
    var placed := Placed(s, event);
    CountOfInsert(s.events, Position(s.events, placed.stamp), placed, kind);
  }

  lemma ShowsAfterPop(s: State, kind: EventType, announced: bool, planned: int, added: nat)
    requires Shows(s, kind, announced, planned, added)
    ensures Shows(PopEvent(s), kind, announced, planned, added)
  {
  }

  lemma {:induction false} NothingUncounted(tr: Trace, plan: Plan)
    requires Simulates(tr, plan)
    ensures Uncounted(tr) == 0 && NonNegativeAmounts(tr)
  {
    if tr.Then? {
      NothingUncounted(tr.prev, plan);
      if tr.op.Pop? && After(tr.prev).events != [] {
        TypeProgress(tr.prev, plan, After(tr.prev).events[0].kind);
      }
    }
  }

  /** At every point of a simulation, the overall triple is the sum of the
      triples of the types. */
  lemma OverallIsTotal(tr: Trace, plan: Plan)
    requires Simulates(tr, plan)
    ensures After(tr).overall == Total(After(tr).statuses)
  {
    NothingUncounted(tr, plan);
    CurrentGap(tr);
    NonNegativeAmountsBalance(tr);
  }

  /** Pops, and so calls of `run` and `select`, may be mixed in anywhere. */
  lemma {:induction false} PopsKeepSimulation(tr: Trace, plan: Plan, n: nat)
    ensures Simulates(Pops(tr, n), plan) <==> Simulates(tr, plan)
    ensures FullyLoaded(Pops(tr, n), plan) <==> FullyLoaded(tr, plan)
  {
    if n > 0 {
      PopsKeepSimulation(tr, plan, n - 1);
      var before := Pops(tr, n - 1);
      assert forall kind :: HasStatus(Then(before, Pop), kind) == HasStatus(before, kind)
                            && AddsOf(Then(before, Pop), kind) == AddsOf(before, kind);
    }
  }

  /** What the statuses look like when everything has been run. */
  ghost function Finished(plan: Plan): map<EventType, ProgressStatus> {
    map kind | kind in plan :: ProgressStatus(plan[kind], plan[kind], plan[kind])
  }

  /** Full accounting: once everything is loaded, the queue is done exactly when
      every type shows current = expected = actual = planned, exactly when the
      overall current number has reached the overall expected number; and the
      overall triple is then the sum over the types. */
  lemma SimulationEnds(tr: Trace, plan: Plan)
    requires Simulates(tr, plan) && FullyLoaded(tr, plan)
    ensures
      var s := After(tr);
      && (s.events == [] <==> s.statuses == Finished(plan))
      && (s.events == [] <==> s.overall.current == s.overall.expected)
      && (s.events == [] ==> s.overall == Total(Finished(plan)))
  {
    var s := After(tr);
    OverallIsTotal(tr, plan);
    forall kind
      ensures kind in s.statuses <==> kind in plan
      ensures kind in plan ==>
                s.statuses[kind] ==
                ProgressStatus(plan[kind] - CountOf(s.events, kind), plan[kind], plan[kind])
    {
      TypeProgress(tr, plan, kind);
    }
    TotalComplete(s.statuses);
    if s.events == [] {
      assert s.statuses == Finished(plan);
    } else {
      var kind := s.events[0].kind;
      TypeProgress(tr, plan, kind);
      assert CountOf(s.events, kind) > 0;
      assert s.statuses[kind].current < s.statuses[kind].expected;
    }
  }

  /** No pop of a simulation throws, except on an empty queue, and each reports
      the exact numbers of events run so far, this one included. */
  lemma SimulationReports(tr: Trace, plan: Plan)
    requires Simulates(tr, plan) && After(tr).events != []
    ensures
      var s := After(tr);
      var kind := s.events[0].kind;
      && kind in plan
      && OutcomeOfPop(s) == Popped(ProgressStatusSet(
           kind,
           ProgressStatus(AddsOf(tr, kind) - CountOf(s.events, kind) + 1, plan[kind], plan[kind]),
           s.overall.(current := |Departed(tr)| + 1)))
  {
    TypeProgress(tr, plan, After(tr).events[0].kind);
    EventsConserved(tr);
  }

  /** Draining a loaded simulation always finishes it. */
  lemma DrainFinishes(tr: Trace, plan: Plan)
    requires Simulates(tr, plan) && FullyLoaded(tr, plan)
    ensures
      Drained(After(tr)) == State([], Total(Finished(plan)), Finished(plan))
  {
    var n := |After(tr).events|;
    AfterPops(tr, n);
    PopManyEffect(After(tr), n);
    PopsKeepSimulation(tr, plan, n);
    SimulationEnds(Pops(tr, n), plan);
  }

  // Several rounds

  /** What the current number of the type no longer shows: the pops that an
      addStatus for the type overwrote with zero, those that a reset zeroed, and
      the events that a reset threw away. */
  ghost function Forgotten(tr: Trace, kind: EventType): nat {
    match tr
    case Fresh => 0
    case Then(prev, AddCount(k, _)) => Forgotten(prev, kind) + if k == kind then PopsOf(prev, kind) else 0
    case Then(prev, ResetAll(_)) =>
      Forgotten(prev, kind) + PopsOf(prev, kind) + CountOf(After(prev).events, kind)
    case Then(prev, _) => Forgotten(prev, kind)
  }

  /** In every run, the events added of a type are those its pops still show,
      those still queued, and those forgotten. */
  lemma {:induction false} AddsAccounted(tr: Trace, kind: EventType)
    ensures AddsOf(tr, kind) == PopsOf(tr, kind) + CountOf(After(tr).events, kind) + Forgotten(tr, kind)
  {
    if tr.Then? {
      AddsAccounted(tr.prev, kind);
      CountStep(After(tr.prev), tr.op, kind);
    }
  }

  lemma CountStep(s: State, op: Op, kind: EventType)
    ensures
      CountOf(Apply(s, op).events, kind) ==
      match op
      case Add(event) => CountOf(s.events, kind) + (if event.kind == kind then 1 else 0)
      case Pop => CountOf(s.events, kind) - (if s.events != [] && s.events[0].kind == kind then 1 else 0)
      case ResetAll(_) => 0
      case _ => CountOf(s.events, kind)
  {
    if op.Add? {
      var placed := Placed(s, op.event);
      CountOfInsert(s.events, Position(s.events, placed.stamp), placed, kind);
    }
  }

  /** In every run, what a type still lacks to its expected number is what was
      announced and not added, what is queued, and what was forgotten. */
  lemma {:induction false} ProgressGap(tr: Trace, kind: EventType)
    requires HasStatus(tr, kind)
    ensures
      && kind in After(tr).statuses
      && After(tr).statuses[kind].expected - After(tr).statuses[kind].current
         == AnnouncedOf(tr, kind) - AddsOf(tr, kind)
            + CountOf(After(tr).events, kind) + Forgotten(tr, kind)
  {
    CurrentOfType(tr, kind);
    FractionalCountsOfType(tr, kind);
    AddsAccounted(tr, kind);
  }

  /** At the end of any number of rounds, with resets or without: when as many
      events of the type were added as announced, the done queue shows a gap of
      exactly the forgotten events, and current reaches expected exactly when
      none is queued and none was forgotten. */
  lemma {:induction false} RoundsEnd(tr: Trace, kind: EventType)
    requires HasStatus(tr, kind) && AddsOf(tr, kind) == AnnouncedOf(tr, kind)
    ensures
      && kind in After(tr).statuses
      && var status := After(tr).statuses[kind];
         && (After(tr).events == [] ==> status.expected - status.current == Forgotten(tr, kind))
         && (status.current == status.expected
             <==> CountOf(After(tr).events, kind) == 0 && Forgotten(tr, kind) == 0)
  {
    ProgressGap(tr, kind);
  }

  /** Overall, only resets forget: what is lacking to the expected number is what
      was announced beyond the arrivals since the last reset, and what is queued. */
  lemma {:induction false} OverallGap(tr: Trace)
    requires RoundingSafe(tr)
    ensures After(tr).overall.expected - After(tr).overall.current
            == Announced(tr) - |Arrivals(tr)| + |After(tr).events|
  {
    FractionalCounts(tr);
    EventsConserved(tr);
  }

  /** One round forgets nothing. */
  lemma {:induction false} OneRoundForgetsNothing(tr: Trace, plan: Plan, kind: EventType)
    requires Simulates(tr, plan)
    ensures Forgotten(tr, kind) == 0
  {
    if tr.Then? {
      OneRoundForgetsNothing(tr.prev, plan, kind);
      AddsAccounted(tr.prev, kind);
      TypeProgress(tr.prev, plan, kind);
    }
  }
}
