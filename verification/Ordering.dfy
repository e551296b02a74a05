/**
  Where events wait and in which order they leave, over whole runs.
 */
module Ordering {
  import opened StdAir
  import opened QueueModel
  import opened Traces

  // Single steps

  /** What one call of addEvent changes in the history. */
  lemma AddStep(h: History, event: EventStruct)
    requires Coherent(h)
    ensures
      var h' := Step(h, Add(event));
      var arrival := ArrivalOf(h, event);
      && arrival == Arrival(|h.arrivals|, event.stamp, event.(stamp := arrival.event.stamp))
      && h'.arrivals == h.arrivals + [arrival] && h'.departed == h.departed
      && multiset(h'.queued) == multiset(h.queued) + multiset{arrival}
      && (forall a :: a in h'.queued <==> a in h.queued || a == arrival)
      && Stamps(h'.state.events) == Stamps(h.state.events) + {arrival.event.stamp}
  {
    var arrival := ArrivalOf(h, event);
    var p := Position(h.state.events, arrival.event.stamp);
    SortedInsert(h.state.events, arrival.event);
    MembersOfInsert(h.queued, p, arrival);
    MultisetOfInsert(h.queued, p, arrival);
  }

  lemma MultisetOfInsert<T>(s: seq<T>, p: nat, x: T)
    requires p <= |s|
    ensures multiset(InsertAt(s, p, x)) == multiset(s) + multiset{x}
  {
    assert s == s[..p] + s[p..];
  }

  /** What popping a queue that is not empty changes in the history. */
  lemma PopStep(h: History)
    requires Coherent(h) && h.queued != []
    ensures
      var h' := Step(h, Pop);
      && h'.arrivals == h.arrivals && h'.departed == h.departed + [h.queued[0]]
      && multiset(h.queued) == multiset{h.queued[0]} + multiset(h'.queued)
      && (forall a :: a in h'.queued ==> a in h.queued && h.queued[0].event.stamp < a.event.stamp)
      && Stamps(h'.state.events) == Stamps(h.state.events) - {h.queued[0].event.stamp}
  {
    assert h.queued == [h.queued[0]] + h.queued[1..];
    SortedTail(h.state.events);
    forall a | a in h.queued[1..] ensures h.queued[0].event.stamp < a.event.stamp {
      var i :| 0 <= i < |h.queued| - 1 && h.queued[1..][i] == a;
      assert h.state.events[0].stamp < h.state.events[i + 1].stamp;
    }
  }

  // Conservation

  /** The arrivals are exactly those that have left plus those still queued, each
      one once; they are told apart by their tickets. */
  ghost predicate Conserved(h: History) {
    && multiset(h.departed) + multiset(h.queued) == multiset(h.arrivals)
    && forall i :: 0 <= i < |h.arrivals| ==> h.arrivals[i].ticket == i
  }

  /** In every run, no event is lost, doubled or made up. */
  lemma {:induction false} NothingLost(tr: Trace)
    ensures Conserved(Past(tr))
  {
    if tr.Then? {
      NothingLost(tr.prev);
      var h := Past(tr.prev);
      if tr.op.Add? {
        ConservedAfterAdd(h, tr.op.event);
      } else if tr.op.Pop? && h.queued != [] {
        ConservedAfterPop(h);
      }
    }
  }

  lemma ConservedAfterAdd(h: History, event: EventStruct)
    requires Coherent(h) && Conserved(h)
    ensures Conserved(Step(h, Add(event)))
  {
    AddStep(h, event);
  }

  lemma ConservedAfterPop(h: History)
    requires Coherent(h) && Conserved(h) && h.queued != []
    ensures Conserved(Step(h, Pop))
  {
    PopStep(h);
  }

  lemma {:induction false} ArrivalIsSomewhere(h: History, a: Arrival)
    requires Conserved(h)
    ensures a in h.arrivals <==> a in h.departed || a in h.queued
  {
    assert a in h.arrivals <==> a in multiset(h.arrivals);
  }

  // Tightness

  /** Every slot between the requested and the actual stamp of the arrival is
      taken, as far as it lies above everything that has left. */
  ghost predicate Covered(a: Arrival, departed: seq<Arrival>, stamps: set<int>) {
    && a.requested <= a.event.stamp
    && forall k :: a.requested <= k <= a.event.stamp && Above(departed, k) ==> k in stamps
  }

  ghost predicate Tight(h: History) {
    forall a :: a in h.queued ==> Covered(a, h.departed, Stamps(h.state.events))
  }

  /** In every run, no event waits behind a usable free slot. */
  lemma {:induction false} Tightness(tr: Trace)
    ensures Tight(Past(tr))
  {
    if tr.Then? {
      Tightness(tr.prev);
      var h := Past(tr.prev);
      if tr.op.Add? {
        TightAfterAdd(h, tr.op.event);
      } else if tr.op.Pop? && h.queued != [] {
        TightAfterPop(h);
      }
    }
  }

  lemma TightAfterAdd(h: History, event: EventStruct)
    requires Coherent(h) && Tight(h)
    ensures Tight(Step(h, Add(event)))
  {
    AddStep(h, event);
    var arrival := ArrivalOf(h, event);
    var stamps := Stamps(h.state.events);
    forall a | a in h.queued || a == arrival ensures Covered(a, h.departed, stamps + {arrival.event.stamp}) {
      assert a in h.queued ==> Covered(a, h.departed, stamps);
    }
  }

  lemma TightAfterPop(h: History)
    requires Coherent(h) && Tight(h) && h.queued != []
    ensures Tight(Step(h, Pop))
  {
    PopStep(h);
    var h' := Step(h, Pop);
    forall a | a in h'.queued ensures Covered(a, h'.departed, Stamps(h'.state.events)) {
      assert Covered(a, h.departed, Stamps(h.state.events));
      CoveredAfterPop(a, h.departed, h.queued[0], Stamps(h.state.events));
    }
  }

  lemma CoveredAfterPop(a: Arrival, departed: seq<Arrival>, first: Arrival, stamps: set<int>)
    requires Covered(a, departed, stamps)
    ensures Covered(a, departed + [first], stamps - {first.event.stamp})
  {
  }

  // Order of departure

  /** Of two arrivals, the later one asked for an earlier stamp or got a later
      one. */
  predicate FairPair(earlier: Arrival, later: Arrival) {
    earlier.requested <= later.requested ==> earlier.event.stamp < later.event.stamp
  }

  /** Popped stamps strictly increase, everything queued is later than everything
      popped, and every pair of arrivals got fair stamps. */
  ghost predicate Orderly(h: History) {
    && (forall i, j :: 0 <= i < j < |h.departed| ==> h.departed[i].event.stamp < h.departed[j].event.stamp)
    && (forall a :: a in h.queued ==> Above(h.departed, a.event.stamp))
    && (forall i, j :: 0 <= i < j < |h.arrivals| ==> FairPair(h.arrivals[i], h.arrivals[j]))
  }

  lemma {:induction false} CausalOrder(tr: Trace)
    requires Causal(tr)
    ensures Orderly(Past(tr))
  {
    if tr.Then? {
      CausalOrder(tr.prev);
      var h := Past(tr.prev);
      if tr.op.Add? {
        NothingLost(tr.prev);
        Tightness(tr.prev);
        OrderlyAfterAdd(h, tr.op.event);
      } else if tr.op.Pop? && h.queued != [] {
        OrderlyAfterPop(h);
      }
    }
  }

  lemma OrderlyAfterAdd(h: History, event: EventStruct)
    requires Coherent(h) && Conserved(h) && Tight(h) && Orderly(h)
    requires Above(h.departed, event.stamp)
    ensures Orderly(Step(h, Add(event)))
  {
    var arrival := ArrivalOf(h, event);
    AddStep(h, event);
    assert Above(h.departed, arrival.event.stamp);
    forall i | 0 <= i < |h.arrivals| ensures FairPair(h.arrivals[i], arrival) {
      if h.arrivals[i].requested <= event.stamp {
        NewArrivalIsLater(h, event, h.arrivals[i]);
      }
    }
  }

  /** The heart of first come, first served: by tightness the slots of an
      earlier arrival leave no gap that the new one could slip into. */
  lemma NewArrivalIsLater(h: History, event: EventStruct, a: Arrival)
    requires Coherent(h) && Conserved(h) && Tight(h) && Above(h.departed, event.stamp)
    requires a in h.arrivals && a.requested <= event.stamp
    ensures a.event.stamp < ArrivalOf(h, event).event.stamp
  {
    var stamp := ArrivalOf(h, event).event.stamp;
    ArrivalIsSomewhere(h, a);
    assert Above(h.departed, stamp);
    if a in h.queued {
      assert Covered(a, h.departed, Stamps(h.state.events));
    }
  }

  lemma OrderlyAfterPop(h: History)
    requires Coherent(h) && Orderly(h) && h.queued != []
    ensures Orderly(Step(h, Pop))
  {
    PopStep(h);
    assert h.queued[0] in h.queued && Above(h.departed, h.queued[0].event.stamp);
    forall i | 0 <= i < |h.departed| ensures h.departed[i].event.stamp < h.queued[0].event.stamp {
      assert h.departed[i] in h.departed;
    }
  }

  /** The history is orderly now and was so at every earlier point of the run. */
  ghost predicate AlwaysOrderly(tr: Trace) {
    Orderly(Past(tr)) && (tr.Then? ==> AlwaysOrderly(tr.prev))
  }

  /** The runs that stay orderly throughout are exactly the causal ones. */
  lemma {:induction false} OrderlyRuns(tr: Trace)
    ensures AlwaysOrderly(tr) <==> Causal(tr)
  {
    if tr.Then? {
      OrderlyRuns(tr.prev);
      if Causal(tr) {
        CausalOrder(tr);
      } else if Causal(tr.prev) {
        LateAddBreaksOrder(Past(tr.prev), tr.op.event);
      }
    }
  }

  /** An event added at or below a popped stamp is queued at or below it: that
      stamp is free, because everything queued lies above it. */
  lemma LateAddBreaksOrder(h: History, event: EventStruct)
    requires Coherent(h) && Orderly(h) && !Above(h.departed, event.stamp)
    ensures !Orderly(Step(h, Add(event)))
  {
    var d :| d in h.departed && event.stamp <= d.event.stamp;
    forall e | e in h.state.events ensures d.event.stamp < e.stamp {
      var i :| 0 <= i < |h.queued| && h.state.events[i] == e;
      assert h.queued[i] in h.queued && Above(h.departed, e.stamp);
    }
    AddStep(h, event);
    var arrival := ArrivalOf(h, event);
    assert arrival.event.stamp <= d.event.stamp;
    assert !Above(h.departed, arrival.event.stamp);
  }

  /** First come, first served: in a causal run, if arrival `j` has left and
      arrival `i` came before it and asked for no later a stamp, then `i` left
      before `j`. Ties go to the earlier arrival. */
  lemma FirstComeFirstServed(tr: Trace, i: nat, j: nat, m: nat) returns (l: nat)
    requires Causal(tr)
    requires i < j < |Arrivals(tr)| && Arrivals(tr)[i].requested <= Arrivals(tr)[j].requested
    requires m < |Departed(tr)| && Departed(tr)[m] == Arrivals(tr)[j]
    ensures l < m && Departed(tr)[l] == Arrivals(tr)[i]
  {
    NothingLost(tr);
    CausalOrder(tr);
    l := LeftBefore(Past(tr), i, j, m);
  }

  lemma LeftBefore(h: History, i: nat, j: nat, m: nat) returns (l: nat)
    requires Conserved(h) && Orderly(h)
    requires i < j < |h.arrivals| && h.arrivals[i].requested <= h.arrivals[j].requested
    requires m < |h.departed| && h.departed[m] == h.arrivals[j]
    ensures l < m && h.departed[l] == h.arrivals[i]
  {
    var first := h.arrivals[i];
    assert FairPair(first, h.arrivals[j]);
    ArrivalIsSomewhere(h, first);
    assert h.departed[m] in h.departed;
    assert first in h.queued ==> Above(h.departed, first.event.stamp);
    l :| 0 <= l < |h.departed| && h.departed[l] == first;
  }

  // Order of the requests

  /** Everything departed, then everything queued: the order of departure, past
      and to come. */
  ghost function Line(h: History): seq<Arrival> {
    h.departed + h.queued
  }

  predicate Rising(line: seq<Arrival>) {
    forall i, j :: 0 <= i < j < |line| ==> line[i].requested <= line[j].requested
  }

  /** Events leave in the order of the stamps they asked for. */
  ghost predicate ByRequest(h: History) {
    Rising(Line(h))
  }

  ghost predicate AlwaysByRequest(tr: Trace) {
    ByRequest(Past(tr)) && (tr.Then? ==> AlwaysByRequest(tr.prev))
  }

  /** No queued event on a slot that the new event would have to skip has asked
      for a later stamp than the new event does. */
  ghost predicate Undisturbed(h: History, event: EventStruct) {
    forall a :: a in h.queued && event.stamp <= a.event.stamp < ArrivalOf(h, event).event.stamp
                ==> a.requested <= event.stamp
  }

  /** Every addition of the run was undisturbed. */
  ghost predicate Timely(tr: Trace) {
    tr.Then? ==> Timely(tr.prev) && (tr.op.Add? ==> Undisturbed(Past(tr.prev), tr.op.event))
  }

  /** In a causal run, events leave in the order of the stamps they asked for, at
      every point, if and only if every addition was undisturbed. */
  lemma {:induction false} TimelyRuns(tr: Trace)
    requires Causal(tr)
    ensures AlwaysByRequest(tr) <==> Timely(tr)
  {
    if tr.Then? {
      TimelyRuns(tr.prev);
      var h := Past(tr.prev);
      if tr.op.Add? {
        Tightness(tr.prev);
        CausalOrder(tr.prev);
        NeverAdvanced(tr.prev);
        if ByRequest(h) {
          ByRequestAfterAdd(h, tr.op.event);
        }
      } else if tr.op.Pop? && h.queued != [] {
        LineAfterPop(h);
      }
    }
  }

  ghost predicate NotAdvanced(h: History) {
    forall a :: a in Line(h) ==> a.requested <= a.event.stamp
  }

  lemma {:induction false} NeverAdvanced(tr: Trace)
    ensures NotAdvanced(Past(tr))
  {
    if tr.Then? {
      NeverAdvanced(tr.prev);
      var h := Past(tr.prev);
      if tr.op.Add? {
        AddStep(h, tr.op.event);
      } else if tr.op.Pop? && h.queued != [] {
        LineAfterPop(h);
      }
    }
  }

  lemma LineAfterPop(h: History)
    requires Coherent(h) && h.queued != []
    ensures Line(Step(h, Pop)) == Line(h)
  {
    assert h.queued == [h.queued[0]] + h.queued[1..];
  }

  /** One addition keeps the order exactly when it is undisturbed. */
  lemma ByRequestAfterAdd(h: History, event: EventStruct)
    requires Coherent(h) && Tight(h) && NotAdvanced(h) && ByRequest(h)
    requires Above(h.departed, event.stamp)
    ensures ByRequest(Step(h, Add(event))) <==> Undisturbed(h, event)
  {
    var p := Position(h.state.events, ArrivalOf(h, event).event.stamp);
    FitsExactly(h, event, p);
    BehindAsksLater(h, event, p);
    if Undisturbed(h, event) {
      AheadAsksEarlier(h, event, p);
    }
    if AheadFits(Line(h), |h.departed| + p, event.stamp) {
      UndisturbedAhead(h, event, p);
    }
  }

  lemma FitsExactly(h: History, event: EventStruct, p: nat)
    requires Coherent(h) && ByRequest(h) && p == Position(h.state.events, ArrivalOf(h, event).event.stamp)
    ensures ByRequest(Step(h, Add(event))) <==>
            && AheadFits(Line(h), |h.departed| + p, event.stamp)
            && BehindFits(Line(h), |h.departed| + p, event.stamp)
  {
    LineAfterAdd(h, event);
    RisingInsert(Line(h), |h.departed| + p, ArrivalOf(h, event));
  }

  ghost predicate AheadFits(line: seq<Arrival>, m: nat, requested: int)
    requires m <= |line|
  {
    forall i :: 0 <= i < m ==> line[i].requested <= requested
  }

  ghost predicate BehindFits(line: seq<Arrival>, m: nat, requested: int) {
    forall i :: m <= i < |line| ==> requested <= line[i].requested
  }

  lemma RisingInsert(line: seq<Arrival>, m: nat, x: Arrival)
    requires Rising(line) && m <= |line|
    ensures Rising(InsertAt(line, m, x)) <==>
            AheadFits(line, m, x.requested) && BehindFits(line, m, x.requested)
  {
    var line' := InsertAt(line, m, x);
    assert forall i :: 0 <= i < m ==> line'[i] == line[i];
    assert forall i :: m <= i < |line| ==> line'[i + 1] == line[i];
    assert line'[m] == x;
    forall i, j | 0 <= i < j < |line'| && i != m && j != m
      ensures line'[i].requested <= line'[j].requested
    {
      assert line'[i] == line[if i < m then i else i - 1];
      assert line'[j] == line[if j < m then j else j - 1];
    }
  }

  /** Everything departed, and everything queued below the asked stamp, fits. */
  lemma AheadAsksEarlier(h: History, event: EventStruct, p: nat)
    requires Coherent(h) && NotAdvanced(h) && Above(h.departed, event.stamp) && Undisturbed(h, event)
    requires p == Position(h.state.events, ArrivalOf(h, event).event.stamp)
    ensures AheadFits(Line(h), |h.departed| + p, event.stamp)
  {
    forall i | 0 <= i < |h.departed| + p ensures Line(h)[i].requested <= event.stamp {
      assert Line(h)[i] in Line(h);
      if i < |h.departed| {
        assert h.departed[i] in h.departed;
      } else {
        assert h.queued[i - |h.departed|] in h.queued;
      }
    }
  }

  lemma UndisturbedAhead(h: History, event: EventStruct, p: nat)
    requires Coherent(h) && p == Position(h.state.events, ArrivalOf(h, event).event.stamp)
    requires AheadFits(Line(h), |h.departed| + p, event.stamp)
    ensures Undisturbed(h, event)
  {
    forall a | a in h.queued && event.stamp <= a.event.stamp < ArrivalOf(h, event).event.stamp
      ensures a.requested <= event.stamp
    {
      var i :| 0 <= i < |h.queued| && h.queued[i] == a;
      assert i < p;
      assert Line(h)[|h.departed| + i] == a;
    }
  }

  /** Everything queued behind the new event asked for a later stamp, for by
      tightness its slots would otherwise include the one just found free. */
  lemma BehindAsksLater(h: History, event: EventStruct, p: nat)
    requires Coherent(h) && Tight(h) && Above(h.departed, event.stamp)
    requires p == Position(h.state.events, ArrivalOf(h, event).event.stamp)
    ensures BehindFits(Line(h), |h.departed| + p, event.stamp)
  {
    var placed := ArrivalOf(h, event).event.stamp;
    assert Above(h.departed, placed);
    forall i | p <= i < |h.queued| ensures event.stamp <= h.queued[i].requested {
      assert h.queued[i] in h.queued;
      assert Covered(h.queued[i], h.departed, Stamps(h.state.events));
      assert placed <= h.state.events[p].stamp <= h.state.events[i].stamp;
    }
    forall i | |h.departed| + p <= i < |Line(h)| ensures event.stamp <= Line(h)[i].requested {
      assert Line(h)[i] == h.queued[i - |h.departed|];
    }
  }

  /** In a history in the order of the requests, so is the queue. */
  lemma QueuedByRequest(h: History, i: nat, j: nat)
    requires ByRequest(h) && i < j < |h.queued|
    ensures h.queued[i].requested <= h.queued[j].requested
  {
    assert Line(h)[|h.departed| + i] == h.queued[i] && Line(h)[|h.departed| + j] == h.queued[j];
  }

  lemma LineAfterAdd(h: History, event: EventStruct)
    requires Coherent(h)
    ensures
      var p := Position(h.state.events, ArrivalOf(h, event).event.stamp);
      Line(Step(h, Add(event))) == InsertAt(Line(h), |h.departed| + p, ArrivalOf(h, event))
  {
    InsertBehind(h.departed, h.queued, Position(h.state.events, ArrivalOf(h, event).event.stamp),
                 ArrivalOf(h, event));
  }

  lemma InsertBehind<T>(front: seq<T>, back: seq<T>, p: nat, x: T)
    requires p <= |back|
    ensures front + InsertAt(back, p, x) == InsertAt(front + back, |front| + p, x)
  {
    assert (front + back)[..|front| + p] == front + back[..p];
    assert (front + back)[|front| + p..] == back[p..];
  }

  // Date-times and requested stamps

  /** When events enter on time, every event asked for its own date-time. */
  lemma {:induction false} OnTimeRequests(tr: Trace)
    requires OnTime(tr)
    ensures forall a :: a in Line(Past(tr)) ==> a.requested == TotalMilliseconds(a.event.time)
    ensures forall a :: a in Queued(tr) ==> a.requested == TotalMilliseconds(a.event.time)
  {
    if tr.Then? {
      OnTimeRequests(tr.prev);
      var h := Past(tr.prev);
      if tr.op.Add? {
        AddStep(h, tr.op.event);
      } else if tr.op.Pop? && h.queued != [] {
        LineAfterPop(h);
      }
    }
    assert forall a :: a in Queued(tr) ==> a in Line(Past(tr));
  }

  /** Events leave in the order of their date-times, to the millisecond. */
  ghost predicate InTime(h: History) {
    forall i, j :: 0 <= i < j < |Line(h)| ==>
      TotalMilliseconds(Line(h)[i].event.time) <= TotalMilliseconds(Line(h)[j].event.time)
  }

  ghost predicate AlwaysInTime(tr: Trace) {
    InTime(Past(tr)) && (tr.Then? ==> AlwaysInTime(tr.prev))
  }

  /** The causal runs, with events entered on time, in which the next event to be
      popped is always the next one in time, are exactly the timely ones. */
  lemma {:induction false} NextComingInTime(tr: Trace)
    requires OnTime(tr) && Causal(tr)
    ensures AlwaysInTime(tr) <==> Timely(tr)
  {
    TimelyRuns(tr);
    InTimeByRequest(tr);
  }

  lemma {:induction false} InTimeByRequest(tr: Trace)
    requires OnTime(tr)
    ensures AlwaysInTime(tr) <==> AlwaysByRequest(tr)
  {
    OnTimeRequests(tr);
    SameOrder(Past(tr));
    if tr.Then? {
      InTimeByRequest(tr.prev);
    }
  }

  lemma SameOrder(h: History)
    requires forall a :: a in Line(h) ==> a.requested == TotalMilliseconds(a.event.time)
    ensures InTime(h) <==> ByRequest(h)
  {
    var line := Line(h);
    assert forall i :: 0 <= i < |line| ==> line[i] in line;
    assert forall i :: 0 <= i < |line| ==> line[i].requested == TotalMilliseconds(line[i].event.time);
  }
}
