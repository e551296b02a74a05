/**
  The loops of `run` and `select`, between two pops and at their end.
 */
module PoppingLoops {
  import opened StdAir
  import opened QueueModel
  import opened Insertion
  import opened RunControl

  /** The event handed out after `n` pops. */
  function LastPopped(before: State, n: nat, ioEvent: EventStruct): EventStruct {
    if 0 < n <= |before.events| then before.events[n - 1] else ioEvent
  }

  /** The loop has popped `i` events. Unless it has just met a stop, it still has
      to go as far as the loop would go on the rest alone. */
  ghost predicate LoopAt(before: State, goal: Goal, now: State, i: nat, stopped: bool) {
    && i <= |before.events|
    && now.events == before.events[i..]
    && now.statuses.Keys == before.statuses.Keys
    && Reach(before.events, before.statuses.Keys, goal)
       == i + if stopped then 0 else Reach(now.events, before.statuses.Keys, goal)
  }

  lemma LoopPop(before: State, goal: Goal, now: State, i: nat)
    requires LoopAt(before, goal, now, i, false) && now.events != []
    ensures LastPopped(before, i + 1, now.events[0]) == now.events[0]
    ensures LoopAt(before, goal, QueueModel.PopEvent(now), i + 1,
                   Stops(before.statuses.Keys, goal, now.events[0]))
  {
  }

  lemma LoopEnds(before: State, goal: Goal, now: State, i: nat, stopped: bool)
    requires LoopAt(before, goal, now, i, stopped) && (stopped || now.events == [])
    ensures i == Reach(before.events, before.statuses.Keys, goal)
  {
  }

  // The three ways in which select ends

  lemma SelectMisses(before: State, time: DateTime)
    requires !Taken(before.events, TotalMilliseconds(time))
    ensures SelectReach(before, time) == 0 && OutcomeOfSelect(before, time) == NoSuchKey
    ensures PopMany(before, SelectReach(before, time)) == before
  {
  }

  lemma SelectThrows(before: State, time: DateTime, now: State, i: nat)
    requires Taken(before.events, TotalMilliseconds(time)) && time != DEFAULT_EVENT_OLDEST_DATETIME
    requires now == PopMany(before, i)
    requires LoopAt(before, At(time), now, i, true) && i > 0
    requires before.events[i - 1].kind !in before.statuses
    ensures SelectReach(before, time) == i && OutcomeOfSelect(before, time) == Threw
    ensures now == PopMany(before, SelectReach(before, time))
  {
  }

  /** The date-time that the loop has reached after `n` pops. */
  function LastTime(before: State, n: nat): DateTime {
    if 0 < n <= |before.events| then before.events[n - 1].time else DEFAULT_EVENT_OLDEST_DATETIME
  }

  lemma SelectStops(before: State, time: DateTime, now: State, i: nat)
    requires Taken(before.events, TotalMilliseconds(time))
    requires now == PopMany(before, i)
    requires LoopAt(before, At(time), now, i, i > 0 && LastTime(before, i) == time)
    requires now.events == [] || LastTime(before, i) == time
    requires i > 0 ==> time != DEFAULT_EVENT_OLDEST_DATETIME && before.events[i - 1].kind in before.statuses
    ensures SelectReach(before, time) == i && now == PopMany(before, SelectReach(before, time))
    ensures OutcomeOfSelect(before, time) ==
            if LastTime(before, i) == time then Selected else AssertionFailed
  {
  }

  // What run and select have done, read off the events that were queued

  /** Run pops no break point before its last event, and ends at one, with an
      exception at an event without status, or on an empty queue. */
  lemma RunSays(s: State)
    ensures
      var n := RunReach(s);
      && (forall i :: 0 <= i < n - 1 ==> s.events[i].kind != BRK_PT && s.events[i].kind in s.statuses)
      && (n == |s.events| ||
          (n > 0 && (s.events[n - 1].kind == BRK_PT || s.events[n - 1].kind !in s.statuses)))
  {
    ReachStops(s.events, s.statuses.Keys, BreakPoint);
    forall i | 0 <= i < RunReach(s) - 1 ensures s.events[i].kind != BRK_PT && s.events[i].kind in s.statuses {
      assert !Stops(s.statuses.Keys, BreakPoint, s.events[i]);
    }
  }

  /** Select finds no key exactly when the slot is free, throws exactly at an event
      without status, and otherwise ends at the first event of the date-time or
      on an empty queue; for the oldest date-time it pops nothing. */
  lemma SelectSays(s: State, time: DateTime)
    ensures
      var n := SelectReach(s, time);
      var outcome := OutcomeOfSelect(s, time);
      && n <= |s.events|
      && (forall i :: 0 <= i < n - 1 ==> s.events[i].time != time && s.events[i].kind in s.statuses)
      && (outcome == NoSuchKey <==> !Taken(s.events, TotalMilliseconds(time)))
      && (outcome == Threw <==> n > 0 && s.events[n - 1].kind !in s.statuses)
      && (outcome == Selected ==> time == DEFAULT_EVENT_OLDEST_DATETIME || (n > 0 && s.events[n - 1].time == time))
      && (outcome == AssertionFailed ==> n == |s.events| && n > 0 && s.events[n - 1].time != time)
      && (outcome == NoSuchKey || time == DEFAULT_EVENT_OLDEST_DATETIME ==> n == 0)
      && (time == DEFAULT_EVENT_OLDEST_DATETIME ==> outcome == Selected || outcome == NoSuchKey)
  {
    TakenIsStamp(s.events, TotalMilliseconds(time));
    ReachStops(s.events, s.statuses.Keys, At(time));
    forall i | 0 <= i < SelectReach(s, time) - 1
      ensures s.events[i].time != time && s.events[i].kind in s.statuses
    {
      assert !Stops(s.statuses.Keys, At(time), s.events[i]);
    }
    if TotalMilliseconds(time) in Stamps(s.events) {
      var e :| e in s.events && e.stamp == TotalMilliseconds(time);
    }
  }

  /** The event that select hands out is the last one it has popped, or the
      caller's own if it pops nothing. */
  lemma LastOfSelect(s: State, time: DateTime, ioEvent: EventStruct)
    ensures
      var n := SelectReach(s, time);
      n <= |s.events| && LastPopped(s, n, ioEvent) == if n == 0 then ioEvent else s.events[n - 1]
  {
  }

  /** The events are the last ones of the batches, in order. */
  ghost predicate EndBatches(lasts: seq<EventStruct>, batches: seq<seq<EventStruct>>) {
    && |lasts| == |batches|
    && forall k :: 0 <= k < |batches| ==> batches[k] != [] && lasts[k] == batches[k][|batches[k]| - 1]
  }

  /** Repeated runs have popped the batches `done` and handed out their last
      events; the other batches are those of the rest. */
  ghost predicate Batched(before: State, now: State, done: seq<seq<EventStruct>>, lasts: seq<EventStruct>) {
    && Drained(now) == Drained(before)
    && done + RunBatches(now) == RunBatches(before)
    && EndBatches(lasts, done)
  }

  lemma NextBatch(before: State, now: State, done: seq<seq<EventStruct>>, lasts: seq<EventStruct>,
                  ioEvent: EventStruct)
    requires Batched(before, now, done, lasts) && now.events != []
    ensures
      var n := RunReach(now);
      && n <= |now.events| && |PopMany(now, n).events| < |now.events|
      && Batched(before, PopMany(now, n), done + [now.events[..n]], lasts + [LastPopped(now, n, ioEvent)])
  {
    var n := RunReach(now);
    PopManyEffect(now, n);
    DrainedAfter(now, n);
    FirstBatch(now, done);
    AddEnd(lasts, done, LastPopped(now, n, ioEvent), now.events[..n]);
  }

  lemma FirstBatch(now: State, done: seq<seq<EventStruct>>)
    requires now.events != []
    ensures done + [now.events[..RunReach(now)]] + RunBatches(PopMany(now, RunReach(now)))
            == done + RunBatches(now)
  {
    MoveFirst(done, RunBatches(now));
  }

  lemma AddEnd(lasts: seq<EventStruct>, done: seq<seq<EventStruct>>, last: EventStruct, batch: seq<EventStruct>)
    requires EndBatches(lasts, done) && batch != [] && last == batch[|batch| - 1]
    ensures EndBatches(lasts + [last], done + [batch])
  {
  }

  lemma LastBatch(before: State, now: State, done: seq<seq<EventStruct>>, lasts: seq<EventStruct>)
    requires Batched(before, now, done, lasts) && now.events == []
    ensures now == Drained(before) && EndBatches(lasts, RunBatches(before))
  {
    assert done + RunBatches(now) == done;
  }

  lemma MoveFirst<T>(popped: seq<T>, rest: seq<T>)
    requires rest != []
    ensures popped + [rest[0]] + rest[1..] == popped + rest
  {
  }
}
