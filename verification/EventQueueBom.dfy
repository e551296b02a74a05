/**
  The event queue as an object. A ghost field holds the value of its fields, and
  every method is proved to change that value by the function of the same name
  in QueueModel.dfy.
 */
module EventQueueBom {
  import opened StdAir
  import opened Probing
  import opened QueueModel
  import opened EventList
  import opened Insertion

  class EventQueue {
    var eventList: map<int, EventStruct>
    var progressStatus: ProgressStatus
    var progressStatusMap: map<EventType, ProgressStatus>

    ghost var contents: State  // the value of the three fields

    ghost predicate Valid()
      reads this
    {
      && Lists(eventList, contents.events)
      && progressStatus == contents.overall
      && progressStatusMap == contents.statuses
    }

    constructor ()
      ensures Valid() && contents == FRESH
      ensures eventList == map[] && progressStatusMap == map[]
      ensures progressStatus == ProgressStatus(0, 0, 0)
    {
      eventList := map[];
      progressStatus := DEFAULT_PROGRESS_STATUS;
      progressStatusMap := map[];
      contents := FRESH;
    }

    // Queries

    function GetQueueSize(): (n: nat)
      requires Valid()
      reads this
      ensures n == |contents.events|
    {
      ListingSize(eventList, contents.events);
      |eventList|
    }

    predicate IsQueueDone()
      requires Valid()
      reads this
      ensures IsQueueDone() <==> contents.events == []
    {
      FirstIsLeast(eventList, contents.events);
      eventList == map[]
    }

    predicate HasProgressStatus(kind: EventType)
      requires Valid()
      reads this
      ensures HasProgressStatus(kind) <==> kind in contents.statuses
    {
      kind in progressStatusMap
    }

    /** Looks the date-time up under its millisecond stamp. */
    predicate HasEventDateTime(time: DateTime)
      requires Valid()
      reads this
      ensures HasEventDateTime(time) <==> Taken(contents.events, TotalMilliseconds(time))
    {
      TakenIsStamp(contents.events, TotalMilliseconds(time));
      TotalMilliseconds(time) in eventList
    }

    // The event list

    /** The insertion of the standard ordered map: it fails on a taken key. */
    method Insert(event: EventStruct) returns (succeeded: bool)
      modifies this`eventList
      ensures succeeded <==> event.stamp !in old(eventList)
      ensures eventList == if succeeded then old(eventList)[event.stamp := event] else old(eventList)
    {
      succeeded := event.stamp !in eventList;
      if succeeded {
        eventList := eventList[event.stamp := event];
      }
    }

    /** Stores the event under the first free stamp from its own on. The retry
        counter of the loop never changes, so only success ends the loop. */
    method AddEvent(ioEvent: EventStruct) returns (event: EventStruct, insertionSucceeded: bool)
      requires Valid()
      modifies this
      ensures Valid() && contents == QueueModel.AddEvent(old(contents), ioEvent)
      ensures insertionSucceeded
      ensures event == ioEvent.(stamp := event.stamp)
      ensures ioEvent.stamp <= event.stamp <= ioEvent.stamp + |old(eventList)|
      ensures event.stamp !in old(eventList)
      ensures forall k :: ioEvent.stamp <= k < event.stamp ==> k in old(eventList)
      ensures eventList == old(eventList)[event.stamp := event]
      ensures progressStatus == old(progressStatus) && progressStatusMap == old(progressStatusMap)
    {
      event := ioEvent;
      insertionSucceeded := Insert(event);
      var idx := 0;
      while !insertionSucceeded && idx != 1000
        invariant idx == 0
        invariant event == ioEvent.(stamp := event.stamp) && ioEvent.stamp <= event.stamp
        invariant forall k :: ioEvent.stamp <= k < event.stamp ==> k in old(eventList)
        invariant insertionSucceeded <==> event.stamp !in old(eventList)
        invariant eventList ==
                  if insertionSucceeded then old(eventList)[event.stamp := event] else old(eventList)
        invariant progressStatus == old(progressStatus) && progressStatusMap == old(progressStatusMap)
        invariant contents == old(contents)
        decreases AtOrAbove(old(eventList).Keys, event.stamp), !insertionSucceeded
      {
        assert event.stamp in AtOrAbove(old(eventList).Keys, event.stamp);
        event := event.IncrementEventTimeStamp();
        insertionSucceeded := Insert(event);
      }
      assert idx != 1000;
      ProbedAdd(old(eventList), contents, ioEvent, event);
      contents := QueueModel.AddEvent(contents, ioEvent);
    }

    /** Removes the event with the smallest stamp and reports the statuses. The
        event is removed, handed out and counted overall before a type without
        status makes the pop throw. */
    method PopEvent(ioEvent: EventStruct) returns (event: EventStruct, outcome: PopOutcome)
      requires Valid()
      modifies this
      ensures Valid() && contents == QueueModel.PopEvent(old(contents))
      ensures outcome == OutcomeOfPop(old(contents))
      ensures outcome == QueueEmpty <==> old(eventList) == map[]
      ensures outcome == QueueEmpty ==>
                && event == ioEvent
                && unchanged(this`eventList, this`progressStatus, this`progressStatusMap)
      ensures outcome != QueueEmpty ==>
                && event == old(contents).events[0]
                && event.stamp in old(eventList) && old(eventList)[event.stamp] == event
                && (forall k :: k in old(eventList) ==> event.stamp <= k)
                && eventList == old(eventList) - {event.stamp}
                && progressStatus == old(progressStatus).(current := old(progressStatus.current) + 1)
                && (outcome == NoProgressStatus <==> event.kind !in old(progressStatusMap))
      ensures outcome == NoProgressStatus ==> progressStatusMap == old(progressStatusMap)
      ensures outcome.Popped? ==>
                && event.kind in old(progressStatusMap)
                && outcome.statusSet.kind == event.kind
                && outcome.statusSet.overall == progressStatus
                && outcome.statusSet.typeSpecific == old(progressStatusMap)[event.kind].(
                                                     current := old(progressStatusMap)[event.kind].current + 1)
                && progressStatusMap == old(progressStatusMap)[event.kind := outcome.statusSet.typeSpecific]
    {
      FirstIsLeast(eventList, contents.events);
      if eventList == map[] {
        contents := QueueModel.PopEvent(contents);
        return ioEvent, QueueEmpty;
      }
      ListingTail(eventList, contents.events);
      var first: int :| first in eventList && forall k :: k in eventList ==> first <= k;
      event := eventList[first];
      var kind := event.kind;
      progressStatus := progressStatus.Increment();
      eventList := eventList - {first};
      contents := QueueModel.PopEvent(contents);
      if kind !in progressStatusMap {
        return event, NoProgressStatus;
      }
      var status := progressStatusMap[kind].Increment();
      SetStatus(kind, status);
      outcome := Popped(ProgressStatusSet(kind, status, progressStatus));
    }

    // The progress statuses

    method SetStatus(kind: EventType, status: ProgressStatus)
      modifies this`progressStatusMap
      ensures progressStatusMap.Keys == old(progressStatusMap).Keys
      ensures kind in progressStatusMap ==> progressStatusMap == old(progressStatusMap)[kind := status]
      ensures kind !in progressStatusMap ==> progressStatusMap == old(progressStatusMap)
    {
      if kind in progressStatusMap {
        progressStatusMap := progressStatusMap[kind := status];
      }
    }

    /** The updateStatus that takes a status: inserts it, or merges it. */
    method UpdateStatusWith(kind: EventType, status: ProgressStatus)
      modifies this`progressStatusMap
      ensures progressStatusMap == MergeStatus(old(progressStatusMap), kind, status)
      ensures kind !in old(progressStatusMap) ==> progressStatusMap == old(progressStatusMap)[kind := status]
      ensures kind in old(progressStatusMap) ==>
                var was := old(progressStatusMap)[kind];
                progressStatusMap == old(progressStatusMap)[kind := ProgressStatus(
                    status.current, was.expected + status.expected, was.actual + status.actual)]
    {
      if kind !in progressStatusMap {
        progressStatusMap := progressStatusMap[kind := status];
        return;
      }
      var merged := progressStatusMap[kind];
      merged := merged.(current := status.current);
      merged := merged.(expected := merged.expected + status.expected);
      merged := merged.(actual := merged.actual + status.actual);
      progressStatusMap := progressStatusMap[kind := merged];
    }

    method AddStatus(kind: EventType, expectedTotal: real)
      requires Valid()
      modifies this
      ensures Valid() && contents == QueueModel.AddStatus(old(contents), kind, expectedTotal)
      ensures eventList == old(eventList)
      ensures progressStatus == ProgressStatus(
                old(progressStatus.current),
                Truncate(old(progressStatus.expected) as real + expectedTotal),
                Truncate(old(progressStatus.actual) as real + expectedTotal))
      ensures kind !in old(progressStatusMap) ==>
                progressStatusMap == old(progressStatusMap)[kind := ProgressStatus(
                    0, expectedTotal.Floor, expectedTotal.Floor)]
      ensures kind in old(progressStatusMap) ==>
                var was := old(progressStatusMap)[kind];
                progressStatusMap == old(progressStatusMap)[kind := ProgressStatus(
                    0, was.expected + expectedTotal.Floor, was.actual + expectedTotal.Floor)]
    {
      var expectedTotalInt := expectedTotal.Floor;
      UpdateStatusWith(kind, InitialStatus(expectedTotalInt));
      var expectedNb := Truncate(progressStatus.expected as real + expectedTotal);
      progressStatus := progressStatus.(expected := expectedNb);
      var actualNb := Truncate(progressStatus.actual as real + expectedTotal);
      progressStatus := progressStatus.(actual := actualNb);
      contents := QueueModel.AddStatus(contents, kind, expectedTotal);
    }

    /** The updateStatus that takes a number: replaces the actual number of the
        type and moves the overall one by the difference. */
    method UpdateStatus(kind: EventType, actualNb: real)
      requires Valid()
      modifies this
      ensures Valid() && contents == QueueModel.UpdateStatus(old(contents), kind, actualNb)
      ensures eventList == old(eventList)
      ensures kind !in old(progressStatusMap) ==> unchanged(this`progressStatus, this`progressStatusMap)
      ensures kind in old(progressStatusMap) ==>
                var was := old(progressStatusMap)[kind];
                && progressStatusMap == old(progressStatusMap)[kind := was.(actual := actualNb.Floor)]
                && progressStatus == old(progressStatus).(
                                     actual := old(progressStatus.actual) - was.actual + actualNb.Floor)
    {
      var actualInt := actualNb.Floor;
      if kind in progressStatusMap {
        var status := progressStatusMap[kind];
        var delta := actualInt - status.actual;
        progressStatus := progressStatus.(actual := progressStatus.actual + delta);
        progressStatusMap := progressStatusMap[kind := status.(actual := actualInt)];
      }
      contents := QueueModel.UpdateStatus(contents, kind, actualNb);
    }

    method Reset(zeroActual: bool)
      requires Valid()
      modifies this
      ensures Valid() && contents == QueueModel.Reset(old(contents), zeroActual)
      ensures eventList == map[] && progressStatusMap.Keys == old(progressStatusMap).Keys
      ensures progressStatus == ProgressStatus(
                0, old(progressStatus.expected), if zeroActual then 0 else old(progressStatus.actual))
      ensures forall kind :: kind in progressStatusMap ==>
                var was := old(progressStatusMap)[kind];
                progressStatusMap[kind] ==
                ProgressStatus(0, was.expected, if zeroActual then 0 else was.actual)
    {
      progressStatus := progressStatus.Reset(zeroActual);
      eventList := map[];
      var pending := progressStatusMap.Keys;
      while pending != {}
        invariant pending <= progressStatusMap.Keys == old(progressStatusMap).Keys
        invariant forall kind :: kind in progressStatusMap ==>
                    progressStatusMap[kind] ==
                    if kind in pending then old(progressStatusMap)[kind]
                    else old(progressStatusMap)[kind].Reset(zeroActual)
        invariant progressStatus == old(progressStatus).Reset(zeroActual)
        invariant eventList == map[] && contents == old(contents)
        decreases |pending|
      {
        var kind :| kind in pending;
        progressStatusMap := progressStatusMap[kind := progressStatusMap[kind].Reset(zeroActual)];
        pending := pending - {kind};
      }
      contents := QueueModel.Reset(contents, zeroActual);
    }
  }
}
