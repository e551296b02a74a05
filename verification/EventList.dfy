/**
  The C++ event list is an ordered map from stamps to events. This module ties
  such a map to the sequence of its events in the order of their stamps.
 */
module EventList {
  import opened StdAir
  import opened Probing
  import opened QueueModel
  import opened Insertion

  type EventMap = map<int, EventStruct>

  /** The events are the map's values in the order of its keys, and each is
      stored under its own stamp. */
  ghost predicate Lists(m: EventMap, events: seq<EventStruct>) {
    && Sorted(events)
    && m.Keys == Stamps(events)
    && forall e :: e in events ==> m[e.stamp] == e
  }

  /** A map has only one such listing. */
  lemma {:induction false} ListingUnique(m: EventMap, a: seq<EventStruct>, b: seq<EventStruct>)
    requires Lists(m, a) && Lists(m, b)
    ensures a == b
    decreases |a|
  {
    FirstIsLeast(m, a);
    FirstIsLeast(m, b);
    if a != [] {
      ListingTail(m, a);
      ListingTail(m, b);
      ListingUnique(m - {a[0].stamp}, a[1..], b[1..]);
      assert a == [a[0]] + a[1..] && b == [b[0]] + b[1..];
    }
  }

  /** The first event of a listing is the one with the least key. */
  lemma FirstIsLeast(m: EventMap, events: seq<EventStruct>)
    requires Lists(m, events)
    ensures events == [] <==> m == map[]
    ensures events != [] ==>
              && events[0].stamp in m && m[events[0].stamp] == events[0]
              && forall k :: k in m ==> events[0].stamp <= k
  {
    if events == [] {
      assert m.Keys == {};
    } else {
      assert events[0] in events && events[0].stamp in Stamps(events);
    }
  }

  lemma ListingTail(m: EventMap, events: seq<EventStruct>)
    requires Lists(m, events) && events != []
    ensures Lists(m - {events[0].stamp}, events[1..])
  {
  }

  lemma ListingInsert(m: EventMap, events: seq<EventStruct>, event: EventStruct)
    requires Lists(m, events) && event.stamp !in m
    ensures Lists(m[event.stamp := event], InsertAt(events, Position(events, event.stamp), event))
  {
    var p := Position(events, event.stamp);
    SortedInsert(events, event);
    MembersOfInsert(events, p, event);
    forall e | e in events ensures e.stamp != event.stamp {
      assert e.stamp in Stamps(events);
    }
  }

  lemma ListingSize(m: EventMap, events: seq<EventStruct>)
    requires Lists(m, events)
    ensures |m| == |events|
  {
    StampCount(events);
    assert |m| == |m.Keys|;
  }

  /** Once probing has found the first free stamp, storing the event there is
      what adding it to the state means. */
  lemma ProbedAdd(m: EventMap, s: State, ioEvent: EventStruct, event: EventStruct)
    requires Lists(m, s.events)
    requires event == ioEvent.(stamp := event.stamp) && ioEvent.stamp <= event.stamp && event.stamp !in m
    requires forall k :: ioEvent.stamp <= k < event.stamp ==> k in m
    ensures event == Placed(s, ioEvent)
    ensures Lists(m[event.stamp := event], AddEvent(s, ioEvent).events)
    ensures event.stamp - ioEvent.stamp <= |m|
  {
    FirstFreeUnique(Stamps(s.events), ioEvent.stamp, event.stamp);
    AddEventLands(s, ioEvent);
    ListingSize(m, s.events);
    ListingInsert(m, s.events, event);
  }
}
