/**
  What the manager's `run` and `select` pop, how often `run` has to be called,
  and when `select` does what its documentation promises.
 */
module RunControl {
  import opened StdAir
  import opened QueueModel
  import opened Traces
  import opened Ordering

  // Several pops in a row

  function PopMany(s: State, n: nat): State {
    if n == 0 then s else PopEvent(PopMany(s, n - 1))
  }

  lemma {:induction false} AfterPops(tr: Trace, n: nat)
    ensures After(Pops(tr, n)) == PopMany(After(tr), n)
  {
    if n > 0 {
      AfterPops(tr, n - 1);
    }
  }

  ghost predicate HaveMoved(tr: Trace, departed: seq<Arrival>, queue: seq<Arrival>, n: nat)
    requires n <= |queue|
  {
    Departed(tr) == departed + queue[..n] && Queued(tr) == queue[n..]
  }

  /** `n` pops let the first `n` events leave, in the order of the queue: each
      queued event leaves once, and draining is popping them all. */
  lemma {:induction false} DepartedAfterPops(tr: Trace, departed: seq<Arrival>, queue: seq<Arrival>, n: nat)
    requires Departed(tr) == departed && Queued(tr) == queue && n <= |queue|
    ensures HaveMoved(Pops(tr, n), departed, queue, n)
  {
    if n == 0 {
      assert departed + queue[..0] == departed;
    } else {
      DepartedAfterPops(tr, departed, queue, n - 1);
      PopMovesOne(Pops(tr, n - 1), departed, queue, n - 1);
    }
  }

  lemma PopMovesOne(tr: Trace, departed: seq<Arrival>, queue: seq<Arrival>, n: nat)
    requires n < |queue| && HaveMoved(tr, departed, queue, n)
    ensures HaveMoved(Then(tr, Pop), departed, queue, n + 1)
  {
  }

  lemma {:induction false} PopManyAdds(s: State, m: nat, n: nat)
    ensures PopMany(PopMany(s, m), n) == PopMany(s, m + n)
  {
    if n > 0 {
      PopManyAdds(s, m, n - 1);
    }
  }

  /** The state in which a plain drain leaves the queue. */
  function Drained(s: State): State {
    PopMany(s, |s.events|)
  }

  /** Popping some events first makes no difference to the drain. */
  lemma DrainedAfter(s: State, n: nat)
    requires n <= |s.events|
    ensures Drained(PopMany(s, n)) == Drained(s)
  {
    PopManyEffect(s, n);
    PopManyAdds(s, n, |s.events| - n);
  }

  function CountOf(events: seq<EventStruct>, kind: EventType): nat {
    if events == [] then 0
    else (if events[0].kind == kind then 1 else 0) + CountOf(events[1..], kind)
  }

  lemma {:induction false} CountOfConcat(a: seq<EventStruct>, b: seq<EventStruct>, kind: EventType)
    ensures CountOf(a + b, kind) == CountOf(a, kind) + CountOf(b, kind)
    decreases |a|
  {
    if a == [] {
      assert a + b == b;
    } else {
      CountOfConcat(a[1..], b, kind);
      assert (a + b)[1..] == a[1..] + b;
    }
  }

  /** `n` pops remove the first `n` events, count all of them overall, and count
      each of them for its type if the type has a status. */
  lemma {:induction false} PopManyEffect(s: State, n: nat)
    requires n <= |s.events|
    ensures
      var s' := PopMany(s, n);
      && s'.events == s.events[n..]
      && s'.overall == s.overall.(current := s.overall.current + n)
      && s'.statuses.Keys == s.statuses.Keys
      && forall kind :: kind in s.statuses ==>
           s'.statuses[kind] ==
           s.statuses[kind].(current := s.statuses[kind].current + CountOf(s.events[..n], kind))
  {
    if n > 0 {
      PopManyEffect(s, n - 1);
      assert s.events[..n] == s.events[..n - 1] + [s.events[n - 1]];
      forall kind ensures
        CountOf(s.events[..n], kind)
        == CountOf(s.events[..n - 1], kind) + (if s.events[n - 1].kind == kind then 1 else 0)
      {
        CountOfConcat(s.events[..n - 1], [s.events[n - 1]], kind);
      }
    }
  }

  // Where run and select stop

  datatype Goal = BreakPoint | At(time: DateTime)

  predicate Meets(goal: Goal, event: EventStruct) {
    match goal
    case BreakPoint => event.kind == BRK_PT
    case At(time) => event.time == time
  }

  /** Popping the event ends the loop: it meets the goal, or its type has no
      status and the pop throws. */
  predicate Stops(tracked: set<EventType>, goal: Goal, event: EventStruct) {
    event.kind !in tracked || Meets(goal, event)
  }

  /** The number of pops up to and including the first stop, or all of them. */
  function Reach(events: seq<EventStruct>, tracked: set<EventType>, goal: Goal): (n: nat)
    ensures n <= |events|
    ensures n == 0 <==> events == []
  {
    if events == [] then 0
    else if Stops(tracked, goal, events[0]) then 1
    else 1 + Reach(events[1..], tracked, goal)
  }

  /** No event is popped after a stop, and the loop ends only at a stop or at
      the end. */
  lemma {:induction false} ReachStops(events: seq<EventStruct>, tracked: set<EventType>, goal: Goal)
    ensures
      var n := Reach(events, tracked, goal);
      && (forall i :: 0 <= i < n - 1 ==> !Stops(tracked, goal, events[i]))
      && (n == |events| || Stops(tracked, goal, events[n - 1]))
    decreases |events|
  {
    if events != [] && !Stops(tracked, goal, events[0]) {
      ReachStops(events[1..], tracked, goal);
    }
  }

  ghost predicate TrackedUpTo(events: seq<EventStruct>, tracked: set<EventType>, i: nat)
    requires i < |events|
  {
    forall j :: 0 <= j <= i ==> events[j].kind in tracked
  }

  /** Some event that meets the goal can be reached without an exception. */
  ghost predicate CanReach(events: seq<EventStruct>, tracked: set<EventType>, goal: Goal) {
    exists i :: 0 <= i < |events| && Meets(goal, events[i]) && TrackedUpTo(events, tracked, i)
  }

  /** The loop ends at the goal exactly when the goal can be reached. */
  lemma {:induction false} ReachMeetsGoal(events: seq<EventStruct>, tracked: set<EventType>, goal: Goal)
    requires events != []
    ensures
      var last := events[Reach(events, tracked, goal) - 1];
      CanReach(events, tracked, goal) <==> last.kind in tracked && Meets(goal, last)
  {
    var n := Reach(events, tracked, goal);
    ReachStops(events, tracked, goal);
    if CanReach(events, tracked, goal) {
      var i :| 0 <= i < |events| && Meets(goal, events[i]) && TrackedUpTo(events, tracked, i);
      assert Stops(tracked, goal, events[i]);
      assert n - 1 <= i;
    }
    if events[n - 1].kind in tracked && Meets(goal, events[n - 1]) {
      forall j | 0 <= j <= n - 1 ensures events[j].kind in tracked {
        assert j < n - 1 ==> !Stops(tracked, goal, events[j]);
      }
      assert TrackedUpTo(events, tracked, n - 1);
    }
  }

  /** The loop empties the queue without meeting the goal and without an
      exception exactly when nothing queued stops it. */
  lemma {:induction false} ReachRunsDry(events: seq<EventStruct>, tracked: set<EventType>, goal: Goal)
    requires events != []
    ensures
      var n := Reach(events, tracked, goal);
      && (!Stops(tracked, goal, events[n - 1])
          <==> forall i :: 0 <= i < |events| ==> !Stops(tracked, goal, events[i]))
      && (!Stops(tracked, goal, events[n - 1]) ==> n == |events|)
  {
    ReachStops(events, tracked, goal);
  }

  // run

  /** One call of `run` pops up to the first break point, or to the first event
      at which it throws, or all. */
  function RunReach(s: State): nat {
    Reach(s.events, s.statuses.Keys, BreakPoint)
  }

  /** The batches of events popped by calling `run` until the queue is done. */
  ghost function RunBatches(s: State): seq<seq<EventStruct>>
    decreases |s.events|
  {
    if s.events == [] then []
    else
      PopManyEffect(s, RunReach(s));
      [s.events[..RunReach(s)]] + RunBatches(PopMany(s, RunReach(s)))
  }

  function Flatten<T>(parts: seq<seq<T>>): seq<T> {
    if parts == [] then [] else parts[0] + Flatten(parts[1..])
  }

  function StopCount(events: seq<EventStruct>, tracked: set<EventType>): nat {
    if events == [] then 0
    else (if Stops(tracked, BreakPoint, events[0]) then 1 else 0) + StopCount(events[1..], tracked)
  }

  /** A batch runs up to its first stop, which is also its last event. */
  predicate IsBatch(batch: seq<EventStruct>, tracked: set<EventType>, last: bool) {
    && batch != []
    && (forall i :: 0 <= i < |batch| - 1 ==> !Stops(tracked, BreakPoint, batch[i]))
    && (!last ==> Stops(tracked, BreakPoint, batch[|batch| - 1]))
  }

  /** The batches make up the events, are cut after each stop, and are as many
      as there are stops, or one more if the last event is not a stop. */
  predicate IsPartition(events: seq<EventStruct>, tracked: set<EventType>, batches: seq<seq<EventStruct>>) {
    && Flatten(batches) == events
    && (forall k :: 0 <= k < |batches| ==> IsBatch(batches[k], tracked, k == |batches| - 1))
    && |batches| == StopCount(events, tracked) + if EndsWithStop(events, tracked) then 0 else 1
  }

  /** Calling `run` until the queue is done pops exactly what a plain drain pops,
      in batches that end at the stops. */
  lemma {:induction false} RunPartitionsDrain(s: State)
    ensures IsPartition(s.events, s.statuses.Keys, RunBatches(s))
    decreases |s.events|
  {
    if s.events != [] {
      var n := RunReach(s);
      ReachStops(s.events, s.statuses.Keys, BreakPoint);
      PopManyEffect(s, n);
      RunPartitionsDrain(PopMany(s, n));
      assert s.events == s.events[..n] + s.events[n..];
      ExtendPartition(s.events[..n], s.events[n..], s.statuses.Keys, RunBatches(PopMany(s, n)));
    }
  }

  lemma ExtendPartition(batch: seq<EventStruct>, rest: seq<EventStruct>, tracked: set<EventType>,
                        batches: seq<seq<EventStruct>>)
    requires IsPartition(rest, tracked, batches) && IsBatch(batch, tracked, rest == [])
    ensures IsPartition(batch + rest, tracked, [batch] + batches)
  {
    StopCountConcat(batch, rest, tracked);
    StopCountOfBatch(batch, tracked);
    FlattenFirst(batch, batches);
    var all := [batch] + batches;
    forall k | 0 <= k < |all| ensures IsBatch(all[k], tracked, k == |all| - 1) {
      assert k > 0 ==> all[k] == batches[k - 1];
    }
    assert rest != [] ==> (batch + rest)[|batch + rest| - 1] == rest[|rest| - 1];
  }

  predicate EndsWithStop(events: seq<EventStruct>, tracked: set<EventType>) {
    events == [] || Stops(tracked, BreakPoint, events[|events| - 1])
  }

  lemma FlattenFirst<T>(part: seq<T>, parts: seq<seq<T>>)
    ensures Flatten([part] + parts) == part + Flatten(parts)
  {
  }

  lemma {:induction false} StopCountConcat(a: seq<EventStruct>, b: seq<EventStruct>, tracked: set<EventType>)
    ensures StopCount(a + b, tracked) == StopCount(a, tracked) + StopCount(b, tracked)
    decreases |a|
  {
    if a == [] {
      assert a + b == b;
    } else {
      StopCountConcat(a[1..], b, tracked);
      assert (a + b)[1..] == a[1..] + b;
    }
  }

  lemma {:induction false} StopCountOfBatch(batch: seq<EventStruct>, tracked: set<EventType>)
    requires IsBatch(batch, tracked, true)
    ensures StopCount(batch, tracked) == if Stops(tracked, BreakPoint, batch[|batch| - 1]) then 1 else 0
    decreases |batch|
  {
    if |batch| > 1 {
      StopCountOfBatch(batch[1..], tracked);
    }
  }

  /** When every queued type has a status, the stops are the break points. */
  lemma {:induction false} StopsAreBreakPoints(events: seq<EventStruct>, tracked: set<EventType>)
    requires forall i :: 0 <= i < |events| ==> events[i].kind in tracked
    ensures StopCount(events, tracked) == CountOf(events, BRK_PT)
    decreases |events|
  {
    if events != [] {
      StopsAreBreakPoints(events[1..], tracked);
    }
  }

  // select

  datatype SelectOutcome =
    | NoSuchKey         // the lookup fails and nothing is popped
    | Selected          // select returns true
    | AssertionFailed   // the queue runs dry before the date-time is met
    | Threw             // an event without a progress status is popped

  /** The number of events that select pops. */
  ghost function SelectReach(s: State, time: DateTime): nat {
    if TotalMilliseconds(time) !in Stamps(s.events) || time == DEFAULT_EVENT_OLDEST_DATETIME then 0
    else Reach(s.events, s.statuses.Keys, At(time))
  }

  ghost function OutcomeOfSelect(s: State, time: DateTime): SelectOutcome {
    var n := SelectReach(s, time);
    if TotalMilliseconds(time) !in Stamps(s.events) then NoSuchKey
    else if time == DEFAULT_EVENT_OLDEST_DATETIME then Selected
    else if n > 0 && s.events[n - 1].kind !in s.statuses then Threw
    else if n > 0 && s.events[n - 1].time == time then Selected
    else AssertionFailed
  }

  ghost predicate Holds(s: State, time: DateTime) {
    exists i :: 0 <= i < |s.events| && s.events[i].time == time
  }

  /** Some event of that date-time can be reached without an exception. */
  ghost predicate Reachable(s: State, time: DateTime) {
    CanReach(s.events, s.statuses.Keys, At(time))
  }

  ghost predicate AllTracked(s: State) {
    forall i :: 0 <= i < |s.events| ==> s.events[i].kind in s.statuses
  }

  /** Once the lookup has succeeded, select ends well exactly when an event of
      the date-time can be reached, and then the last event popped is the first
      of that date-time; the closing assertion fails exactly when no such event
      is queued and nothing throws on the way, and then the queue is empty. */
  lemma SelectExactly(s: State, time: DateTime)
    requires time != DEFAULT_EVENT_OLDEST_DATETIME
    requires TotalMilliseconds(time) in Stamps(s.events)
    ensures
      var n := SelectReach(s, time);
      && 0 < n <= |s.events|
      && (OutcomeOfSelect(s, time) == Selected <==> Reachable(s, time))
      && (OutcomeOfSelect(s, time) == AssertionFailed <==> !Holds(s, time) && AllTracked(s))
      && (OutcomeOfSelect(s, time) == Selected ==>
            && s.events[n - 1].time == time
            && forall i :: 0 <= i < n - 1 ==> s.events[i].time != time)
      && (OutcomeOfSelect(s, time) == AssertionFailed ==> n == |s.events|)
  {
    var tracked, goal := s.statuses.Keys, At(time);
    var e :| e in s.events && e.stamp == TotalMilliseconds(time);
    var n := Reach(s.events, tracked, goal);
    ReachStops(s.events, tracked, goal);
    ReachMeetsGoal(s.events, tracked, goal);
    ReachRunsDry(s.events, tracked, goal);
    assert (forall i :: 0 <= i < |s.events| ==> !Stops(tracked, goal, s.events[i]))
      <==> !Holds(s, time) && AllTracked(s);
    forall i | 0 <= i < n - 1 ensures s.events[i].time != time {
      assert !Stops(tracked, goal, s.events[i]);
    }
  }

  /** For the oldest date-time the loop is over before it starts: select returns
      true without popping or handing out anything, as long as the first slot
      is taken. */
  lemma SelectOldest(s: State)
    ensures SelectReach(s, DEFAULT_EVENT_OLDEST_DATETIME) == 0
    ensures OutcomeOfSelect(s, DEFAULT_EVENT_OLDEST_DATETIME)
            == if 0 in Stamps(s.events) then Selected else NoSuchKey
  {
  }

  /** Select has handed out, last, an event of the date-time. */
  ghost predicate HandsOut(s: State, time: DateTime) {
    var n := SelectReach(s, time);
    0 < n <= |s.events| && s.events[n - 1].time == time
  }

  /** Nothing that occurs before the date-time is still queued after select. */
  ghost predicate PlaysAllBefore(s: State, time: DateTime) {
    forall i :: SelectReach(s, time) <= i < |s.events| ==> s.events[i].time >= time
  }

  /** The documented promise: if an event of the given date-time is queued, select
      returns true with such an event, and all events occurring before it are
      played; otherwise it finds nothing. */
  ghost predicate KeepsPromise(s: State, time: DateTime) {
    if Holds(s, time) then
      OutcomeOfSelect(s, time) == Selected && HandsOut(s, time) && PlaysAllBefore(s, time)
    else
      OutcomeOfSelect(s, time) == NoSuchKey
  }

  /** No event of an earlier date-time stands behind one of this date-time. */
  ghost predicate NothingEarlierBehind(s: State, time: DateTime) {
    forall i, j :: 0 <= i < j < |s.events| && s.events[i].time == time ==> s.events[j].time >= time
  }

  /** The code keeps its promise exactly in these cases. For a date-time that is
      queued: it is not the oldest one, its slot is taken, one of its events can
      be reached without an exception, and no earlier event stands behind one of
      them. For any other: its slot is free. */
  lemma {:induction false} SelectPromise(s: State, time: DateTime)
    ensures KeepsPromise(s, time) <==>
            if Holds(s, time) then
              && time != DEFAULT_EVENT_OLDEST_DATETIME
              && TotalMilliseconds(time) in Stamps(s.events)
              && Reachable(s, time)
              && NothingEarlierBehind(s, time)
            else
              TotalMilliseconds(time) !in Stamps(s.events)
  {
    if time != DEFAULT_EVENT_OLDEST_DATETIME && TotalMilliseconds(time) in Stamps(s.events) {
      SelectExactly(s, time);
      if OutcomeOfSelect(s, time) == Selected {
        PlaysAllExactly(s, time);
      }
    }
  }

  lemma PlaysAllExactly(s: State, time: DateTime)
    requires HandsOut(s, time)
    requires forall i :: 0 <= i < SelectReach(s, time) - 1 ==> s.events[i].time != time
    ensures PlaysAllBefore(s, time) <==> NothingEarlierBehind(s, time)
  {
    var n := SelectReach(s, time);
    if NothingEarlierBehind(s, time) {
      forall j | n <= j < |s.events| ensures s.events[j].time >= time {
        assert s.events[n - 1].time == time && n - 1 < j;
      }
    }
  }

  /** An event scheduled above everything popped is never overlooked: when
      events enter on time, its slot is taken. */
  lemma {:induction false} ScheduledSlotIsTaken(tr: Trace, time: DateTime)
    requires OnTime(tr) && Holds(After(tr), time) && AbovePopped(tr, TotalMilliseconds(time))
    ensures TotalMilliseconds(time) in Stamps(After(tr).events)
  {
    var i :| 0 <= i < |After(tr).events| && After(tr).events[i].time == time;
    var a := Queued(tr)[i];
    assert a in Queued(tr);
    OnTimeRequests(tr);
    Tightness(tr);
    assert a.event == After(tr).events[i];
    assert Covered(a, Departed(tr), Stamps(After(tr).events));
  }

  /** In a causal run with events entered on time, the slot of a queued date-time
      is taken exactly when nothing at or after it has been popped. */
  lemma {:induction false} SlotTakenExactly(tr: Trace, time: DateTime)
    requires OnTime(tr) && Causal(tr) && Holds(After(tr), time)
    ensures TotalMilliseconds(time) in Stamps(After(tr).events) <==> AbovePopped(tr, TotalMilliseconds(time))
  {
    var slot := TotalMilliseconds(time);
    if AbovePopped(tr, slot) {
      ScheduledSlotIsTaken(tr, time);
    }
    if slot in Stamps(After(tr).events) {
      CausalOrder(tr);
      StampIsQueued(Past(tr), slot);
    }
  }

  lemma StampIsQueued(h: History, stamp: int)
    requires Coherent(h) && Orderly(h) && stamp in Stamps(h.state.events)
    ensures Above(h.departed, stamp)
  {
    var e :| e in h.state.events && e.stamp == stamp;
    var i :| 0 <= i < |h.queued| && h.state.events[i] == e;
    assert h.queued[i] in h.queued;
  }

  /** End to end: in every reachable state with events entered on time, for a
      date-time above everything popped, select returns true with an event of
      that date-time if and only if one can be reached without an exception. */
  lemma {:induction false} SelectFindsScheduled(tr: Trace, time: DateTime)
    requires OnTime(tr) && AbovePopped(tr, TotalMilliseconds(time))
    requires time != DEFAULT_EVENT_OLDEST_DATETIME
    ensures OutcomeOfSelect(After(tr), time) == Selected <==> Reachable(After(tr), time)
    ensures OutcomeOfSelect(After(tr), time) == Selected ==>
              && 0 < SelectReach(After(tr), time) <= |After(tr).events|
              && After(tr).events[SelectReach(After(tr), time) - 1].time == time
  {
    var s := After(tr);
    if TotalMilliseconds(time) in Stamps(s.events) {
      SelectExactly(s, time);
    } else if Reachable(s, time) {
      assert Holds(s, time);
      ScheduledSlotIsTaken(tr, time);
    }
  }

  /** Above everything popped, the slot of a queued date-time needs no condition. */
  lemma {:induction false} ScheduledSelectPromise(tr: Trace, time: DateTime)
    requires OnTime(tr) && AbovePopped(tr, TotalMilliseconds(time))
    ensures KeepsPromise(After(tr), time) <==>
            if Holds(After(tr), time) then
              && time != DEFAULT_EVENT_OLDEST_DATETIME
              && Reachable(After(tr), time)
              && NothingEarlierBehind(After(tr), time)
            else
              TotalMilliseconds(time) !in Stamps(After(tr).events)
  {
    SelectPromise(After(tr), time);
    if Holds(After(tr), time) {
      ScheduledSlotIsTaken(tr, time);
    }
  }

  /** In causal runs with events entered on time, the promise about a queued
      date-time depends on what has been popped instead of on its slot. */
  lemma {:induction false} CausalSelectPromise(tr: Trace, time: DateTime)
    requires OnTime(tr) && Causal(tr) && Holds(After(tr), time)
    ensures KeepsPromise(After(tr), time) <==>
            && time != DEFAULT_EVENT_OLDEST_DATETIME
            && AbovePopped(tr, TotalMilliseconds(time))
            && Reachable(After(tr), time)
            && NothingEarlierBehind(After(tr), time)
  {
    SelectPromise(After(tr), time);
    SlotTakenExactly(tr, time);
  }

  /** In a timely run of whole-millisecond events, nothing earlier ever stands
      behind: select then plays all events that occur before the selected one. */
  lemma {:induction false} TimelyRunsPlayAll(tr: Trace, time: DateTime)
    requires OnTime(tr) && Causal(tr) && Timely(tr)
    requires forall e :: e in After(tr).events ==>
               e.time == TotalMilliseconds(e.time) * TICKS_PER_MILLISECOND
    ensures NothingEarlierBehind(After(tr), time)
  {
    var h := Past(tr);
    OnTimeRequests(tr);
    TimelyRuns(tr);
    forall i, j | 0 <= i < j < |h.queued| ensures h.state.events[i].time <= h.state.events[j].time {
      assert h.queued[i] in h.queued && h.queued[j] in h.queued;
      assert h.state.events[i] in h.state.events && h.state.events[j] in h.state.events;
      QueuedByRequest(h, i, j);
    }
  }
}
