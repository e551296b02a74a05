/**
  The commands that drive an event queue.
 */
module EventQueueManager {
  import opened StdAir
  import opened QueueModel
  import opened RunControl
  import opened PoppingLoops
  import opened EventQueueBom

  method AddEvent(queue: EventQueue, ioEvent: EventStruct) returns (event: EventStruct)
    requires queue.Valid()
    modifies queue
    ensures queue.Valid() && queue.contents == QueueModel.AddEvent(old(queue.contents), ioEvent)
    ensures event == Placed(old(queue.contents), ioEvent)
  {
    ghost var before := queue.contents;
    var succeeded;
    event, succeeded := queue.AddEvent(ioEvent);
    Probing.FirstFreeUnique(Stamps(before.events), ioEvent.stamp, event.stamp);
  }

  /** The queue's exceptions are caught here, and a default status set for
      booking requests is returned in their place. */
  method PopEvent(queue: EventQueue, ioEvent: EventStruct)
    returns (event: EventStruct, statusSet: ProgressStatusSet)
    requires queue.Valid()
    modifies queue
    ensures queue.Valid() && queue.contents == QueueModel.PopEvent(old(queue.contents))
    ensures event == if old(queue.contents).events == [] then ioEvent else old(queue.contents).events[0]
    ensures match OutcomeOfPop(old(queue.contents))
            case Popped(report) => statusSet == report
            case _ => statusSet == ProgressStatusSet(BKG_REQ, ProgressStatus(0, 0, 0), ProgressStatus(0, 0, 0))
    ensures
      var before, after := old(queue.contents), queue.contents;
      before.events != [] && event.kind in before.statuses ==>
        statusSet == ProgressStatusSet(event.kind, after.statuses[event.kind], after.overall)
  {
    var outcome;
    event, outcome := queue.PopEvent(ioEvent);
    match outcome {
      case Popped(report) => statusSet := report;
      case _ => statusSet := DefaultStatusSet(BKG_REQ);
    }
  }

  method AddStatus(queue: EventQueue, kind: EventType, count: int)
    requires queue.Valid()
    modifies queue
    ensures queue.Valid() && queue.contents == QueueModel.AddStatus(old(queue.contents), kind, count as real)
  {
    queue.AddStatus(kind, count as real);
  }

  method UpdateStatus(queue: EventQueue, kind: EventType, count: int)
    requires queue.Valid()
    modifies queue
    ensures queue.Valid() && queue.contents == QueueModel.UpdateStatus(old(queue.contents), kind, count as real)
  {
    queue.UpdateStatus(kind, count as real);
  }

  method Reset(queue: EventQueue, zeroActual: bool)
    requires queue.Valid()
    modifies queue
    ensures queue.Valid() && queue.contents == QueueModel.Reset(old(queue.contents), zeroActual)
  {
    queue.Reset(zeroActual);
  }

  /** Pops up to and including the first break point. An event whose type has no
      status ends the run with an exception. */
  method Run(queue: EventQueue, ioEvent: EventStruct) returns (event: EventStruct, threw: bool)
    requires queue.Valid()
    modifies queue
    ensures queue.Valid()
    ensures
      var before, n := old(queue.contents), RunReach(old(queue.contents));
      && queue.contents == PopMany(before, n)
      && n <= |before.events| && queue.contents.events == before.events[n..]
      && event == (if n == 0 then ioEvent else before.events[n - 1])
      && (forall i :: 0 <= i < n - 1 ==> before.events[i].kind != BRK_PT && before.events[i].kind in before.statuses)
      && (threw <==> n > 0 && event.kind !in before.statuses)
      && (queue.contents.events == [] || threw || (n > 0 && event.kind == BRK_PT))
  {
    ghost var before, i := queue.contents, 0;
    event, threw := ioEvent, false;
    var kind := BKG_REQ;
    while !queue.IsQueueDone() && kind != BRK_PT
      invariant queue.Valid() && queue.contents == PopMany(before, i) && !threw
      invariant LoopAt(before, BreakPoint, queue.contents, i, kind == BRK_PT)
      invariant event == LastPopped(before, i, ioEvent)
      invariant i > 0 ==> kind == event.kind && kind in before.statuses
      decreases |queue.contents.events|
    {
      LoopPop(before, BreakPoint, queue.contents, i);
      var outcome;
      event, outcome := queue.PopEvent(event);
      i := i + 1;
      if !outcome.Popped? {
        LoopEnds(before, BreakPoint, queue.contents, i, true);
        RunSays(before);
        return event, true;
      }
      kind := event.kind;
    }
    LoopEnds(before, BreakPoint, queue.contents, i, kind == BRK_PT);
    RunSays(before);
  }

  /** Looks the date-time up; if it is found, pops until an event of that
      date-time comes. */
  method Select(queue: EventQueue, ioEvent: EventStruct, time: DateTime)
    returns (event: EventStruct, outcome: SelectOutcome)
    requires queue.Valid()
    modifies queue
    ensures queue.Valid()
    ensures outcome == OutcomeOfSelect(old(queue.contents), time)
    ensures
      var before, n := old(queue.contents), SelectReach(old(queue.contents), time);
      && queue.contents == PopMany(before, n)
      && event == LastPopped(before, n, ioEvent)
      && n <= |before.events| && queue.contents.events == before.events[n..]
      && event == (if n == 0 then ioEvent else before.events[n - 1])
      && (outcome == Selected && time != DEFAULT_EVENT_OLDEST_DATETIME ==> event.time == time)
  {
    ghost var before, i := queue.contents, 0;
    event := ioEvent;
    if !queue.HasEventDateTime(time) {
      SelectMisses(before, time);
      LastOfSelect(before, time, ioEvent);
      return event, NoSuchKey;
    }
    var dateTime := DEFAULT_EVENT_OLDEST_DATETIME;
    while !queue.IsQueueDone() && dateTime != time
      invariant queue.Valid() && queue.contents == PopMany(before, i)
      invariant dateTime == LastTime(before, i)
      invariant i > 0 ==> event.kind in before.statuses && time != DEFAULT_EVENT_OLDEST_DATETIME
      invariant LoopAt(before, At(time), queue.contents, i, i > 0 && dateTime == time)
      invariant event == LastPopped(before, i, ioEvent)
      decreases |queue.contents.events|
    {
      LoopPop(before, At(time), queue.contents, i);
      var popped;
      event, popped := queue.PopEvent(event);
      i := i + 1;
      if !popped.Popped? {
        SelectThrows(before, time, queue.contents, i);
        LastOfSelect(before, time, ioEvent);
        return event, Threw;
      }
      dateTime := event.time;
    }
    SelectStops(before, time, queue.contents, i);
    LastOfSelect(before, time, ioEvent);
    outcome := if dateTime == time then Selected else AssertionFailed;
  }

  /** Calls `run` until the queue is done, as a program does that goes from break
      point to break point and catches the exceptions: the events handed out are
      the last ones of the batches, one for each call. */
  method RunUntilDone(queue: EventQueue, ioEvent: EventStruct) returns (lasts: seq<EventStruct>)
    requires queue.Valid()
    modifies queue
    ensures queue.Valid() && queue.IsQueueDone()
    ensures queue.contents == Drained(old(queue.contents))
    ensures
      var batches := RunBatches(old(queue.contents));
      && |lasts| == |batches|
      && forall i :: 0 <= i < |lasts| ==> batches[i] != [] && lasts[i] == batches[i][|batches[i]| - 1]
    ensures IsPartition(old(queue.contents).events, old(queue.contents).statuses.Keys,
                        RunBatches(old(queue.contents)))
  {
    ghost var before, done := queue.contents, [];
    lasts := [];
    var event := ioEvent;
    while !queue.IsQueueDone()
      invariant queue.Valid() && Batched(before, queue.contents, done, lasts)
      decreases |queue.contents.events|
    {
      ghost var now, n := queue.contents, RunReach(queue.contents);
      NextBatch(before, now, done, lasts, event);
      var threw;
      event, threw := Run(queue, event);
      lasts, done := lasts + [event], done + [now.events[..n]];
    }
    LastBatch(before, queue.contents, done, lasts);
    RunPartitionsDrain(before);
  }

  /** The main loop of the programs that drive the queue: pop until it is done,
      counting from one and correcting the count at the end. */
  method PopAll(queue: EventQueue, blank: EventStruct) returns (popped: seq<EventStruct>, idx: int)
    requires queue.Valid()
    modifies queue
    ensures queue.Valid() && queue.contents == Drained(old(queue.contents))
    ensures popped == old(queue.contents).events && Sorted(popped)
    ensures idx == |popped| && queue.IsQueueDone()
  {
    ghost var before := queue.contents;
    popped, idx := [], 1;
    while !queue.IsQueueDone()
      invariant queue.Valid() && Drained(queue.contents) == Drained(before)
      invariant popped + queue.contents.events == before.events
      invariant idx == |popped| + 1
      decreases |queue.contents.events|
    {
      MoveFirst(popped, queue.contents.events);
      DrainedAfter(queue.contents, 1);
      var event, statusSet := PopEvent(queue, blank);
      popped := popped + [event];
      idx := idx + 1;
    }
    idx := idx - 1;
  }
}
