/**
  Properties of addEvent: where an event lands, how far it moves, and that the
  order of the additions does not matter for the slots they take together.
 */
module Insertion {
  import opened StdAir
  import opened Probing
  import opened QueueModel

  lemma {:induction false} StampCount(events: seq<EventStruct>)
    requires Sorted(events)
    ensures |Stamps(events)| == |events|
    decreases |events|
  {
    if events != [] {
      assert events[0] in events && events[0].stamp in Stamps(events);
      SortedTail(events);
      StampCount(events[1..]);
    }
  }

  ghost predicate Taken(events: seq<EventStruct>, stamp: int) {
    exists i :: 0 <= i < |events| && events[i].stamp == stamp
  }

  lemma TakenIsStamp(events: seq<EventStruct>, stamp: int)
    ensures Taken(events, stamp) <==> stamp in Stamps(events)
  {
  }

  /** The event lands on the least stamp that is not taken, at or after the one
      it asked for, and moves by at most the size of the queue. */
  lemma AddEventLands(s: State, event: EventStruct)
    requires Sorted(s.events)
    ensures
      var placed := Placed(s, event);
      && placed == event.(stamp := placed.stamp)
      && 0 <= placed.stamp - event.stamp <= |s.events|
      && !Taken(s.events, placed.stamp)
      && forall k :: event.stamp <= k < placed.stamp ==> Taken(s.events, k)
  {
    var placed := Placed(s, event);
    StampCount(s.events);
    BumpBound(Stamps(s.events), event.stamp);
    TakenIsStamp(s.events, placed.stamp);
    forall k | event.stamp <= k < placed.stamp ensures Taken(s.events, k) {
      TakenIsStamp(s.events, k);
    }
  }

  /** Nothing else changes: the queue holds the old events and the new one, in
      the order of their stamps, and the counters are untouched. */
  lemma AddEventKeepsTheRest(s: State, event: EventStruct)
    requires Sorted(s.events)
    ensures
      var s' := AddEvent(s, event);
      && Sorted(s'.events)
      && multiset(s'.events) == multiset(s.events) + multiset{Placed(s, event)}
      && s' == s.(events := s'.events)
  {
    var placed := Placed(s, event);
    var p := Position(s.events, placed.stamp);
    SortedInsert(s.events, placed);
    assert s.events == s.events[..p] + s.events[p..];
  }

  // Several additions in a row

  ghost function AddAll(s: State, events: seq<EventStruct>): State
    decreases |events|
  {
    if events == [] then s else AddAll(AddEvent(s, events[0]), events[1..])
  }

  /** The total distance by which the events are moved. */
  ghost function TotalDelay(s: State, events: seq<EventStruct>): int
    decreases |events|
  {
    if events == [] then 0
    else Placed(s, events[0]).stamp - events[0].stamp + TotalDelay(AddEvent(s, events[0]), events[1..])
  }

  function Requests(events: seq<EventStruct>): seq<int> {
    if events == [] then [] else [events[0].stamp] + Requests(events[1..])
  }

  function Sum(xs: seq<int>): int {
    if xs == [] then 0 else xs[0] + Sum(xs[1..])
  }

  lemma {:induction false} SumOfConcat(a: seq<int>, b: seq<int>)
    ensures Sum(a + b) == Sum(a) + Sum(b)
    decreases |a|
  {
    if a == [] {
      assert a + b == b;
    } else {
      SumOfConcat(a[1..], b);
      assert (a + b)[1..] == a[1..] + b;
    }
  }

  /** The total delay is the sum of the queued stamps afterwards, less the sum
      before and the sum of what was asked for. */
  lemma {:induction false} DelayIsDisplacement(s: State, events: seq<EventStruct>)
    ensures Sum(Requests(AddAll(s, events).events)) ==
            Sum(Requests(s.events)) + Sum(Requests(events)) + TotalDelay(s, events)
    decreases |events|
  {
    if events != [] {
      SumAfterAdd(s, events[0]);
      DelayIsDisplacement(AddEvent(s, events[0]), events[1..]);
      assert Requests(events)[1..] == Requests(events[1..]);
    }
  }

  lemma SumAfterAdd(s: State, event: EventStruct)
    ensures Sum(Requests(AddEvent(s, event).events)) == Sum(Requests(s.events)) + Placed(s, event).stamp
  {
    var placed := Placed(s, event);
    var p := Position(s.events, placed.stamp);
    SumOfMiddle(s.events[..p], placed, s.events[p..]);
    assert s.events == s.events[..p] + s.events[p..];
  }

  lemma SumOfMiddle(a: seq<EventStruct>, y: EventStruct, b: seq<EventStruct>)
    ensures Sum(Requests(a + [y] + b)) == Sum(Requests(a + b)) + y.stamp
  {
    RequestsOfConcat(a + [y], b);
    RequestsOfConcat(a, [y]);
    RequestsOfConcat(a, b);
    assert Requests([y]) == [y.stamp];
    SumOfConcat(Requests(a) + [y.stamp], Requests(b));
    SumOfConcat(Requests(a), [y.stamp]);
    SumOfConcat(Requests(a), Requests(b));
  }

  lemma {:induction false} AddAllFills(s: State, events: seq<EventStruct>)
    requires Sorted(s.events)
    ensures Stamps(AddAll(s, events).events) == Fill(Stamps(s.events), Requests(events))
    ensures TotalDelay(s, events) == TotalBump(Stamps(s.events), Requests(events))
    decreases |events|
  {
    if events != [] {
      SortedInsert(s.events, Placed(s, events[0]));
      AddAllFills(AddEvent(s, events[0]), events[1..]);
      assert Requests(events)[1..] == Requests(events[1..]);
    }
  }

  lemma {:induction false} RequestsOfConcat(a: seq<EventStruct>, b: seq<EventStruct>)
    ensures Requests(a + b) == Requests(a) + Requests(b)
    decreases |a|
  {
    if a == [] {
      assert a + b == b;
    } else {
      RequestsOfConcat(a[1..], b);
      assert (a + b)[1..] == a[1..] + b;
    }
  }

  lemma {:induction false} RequestsPermuted(xs: seq<EventStruct>, ys: seq<EventStruct>)
    requires multiset(xs) == multiset(ys)
    ensures multiset(Requests(xs)) == multiset(Requests(ys))
    decreases |xs|
  {
    if xs == [] {
      assert |ys| == |multiset(ys)| == 0;
    } else {
      assert xs[0] in multiset(ys);
      var i :| 0 <= i < |ys| && ys[i] == xs[0];
      var others := ys[..i] + ys[i + 1..];
      RemoveSame(xs, ys, i);
      RequestsPermuted(xs[1..], others);
      RequestsWithout(ys, i, others);
      RequestsWithout(xs, 0, xs[1..]);
    }
  }

  lemma RequestsWithout(ys: seq<EventStruct>, i: nat, others: seq<EventStruct>)
    requires i < |ys| && others == ys[..i] + ys[i + 1..]
    ensures multiset(Requests(ys)) == multiset(Requests(others)) + multiset{ys[i].stamp}
  {
    assert ys == ys[..i] + [ys[i]] + ys[i + 1..];
    RequestsMiddle(ys[..i], ys[i], ys[i + 1..]);
  }

  lemma RequestsMiddle(a: seq<EventStruct>, y: EventStruct, b: seq<EventStruct>)
    ensures multiset(Requests(a + [y] + b)) == multiset(Requests(a + b)) + multiset{y.stamp}
  {
    RequestsOfConcat(a + [y], b);
    RequestsOfConcat(a, [y]);
    RequestsOfConcat(a, b);
    assert Requests([y]) == [y.stamp];
  }

  /** Events that ask for the same stamps, in any order, take the same stamps
      and are moved by the same total distance. */
  lemma {:induction false} SameRequestsSameStamps(s: State, xs: seq<EventStruct>, ys: seq<EventStruct>)
    requires Sorted(s.events) && multiset(Requests(xs)) == multiset(Requests(ys))
    ensures Stamps(AddAll(s, xs).events) == Stamps(AddAll(s, ys).events)
    ensures TotalDelay(s, xs) == TotalDelay(s, ys)
  {
    AddAllFills(s, xs);
    AddAllFills(s, ys);
    FillPermuted(Stamps(s.events), Requests(xs), Requests(ys));
  }

  /** In particular, the same events in any order. */
  lemma AnyOrderSameStamps(s: State, xs: seq<EventStruct>, ys: seq<EventStruct>)
    requires Sorted(s.events) && multiset(xs) == multiset(ys)
    ensures Stamps(AddAll(s, xs).events) == Stamps(AddAll(s, ys).events)
    ensures TotalDelay(s, xs) == TotalDelay(s, ys)
  {
    RequestsPermuted(xs, ys);
    SameRequestsSameStamps(s, xs, ys);
  }
}
