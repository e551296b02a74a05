/**
  Concrete runs that show where the conditions of the main results are needed.
 */
module Limits {
  import opened StdAir
  import opened Probing
  import opened QueueModel
  import opened Traces
  import opened Ordering
  import opened Accounting
  import opened RunControl

  /** Half an event less on a fresh queue: the type goes down to -1, the overall
      number stays at 0. */
  lemma NegativeFractionUnbalances()
    ensures !Balanced(After(Then(Fresh, AddCount(BKG_REQ, -0.5))))
  {
  }

  /** An event later than everything queued goes to the end, unmoved. */
  lemma AddLater(s: State, event: EventStruct)
    requires forall e :: e in s.events ==> e.stamp < event.stamp
    ensures AddEvent(s, event) == s.(events := s.events + [event])
  {
    FirstFreeUnique(Stamps(s.events), event.stamp, event.stamp);
    var p := Position(s.events, event.stamp);
    forall i | 0 <= i < |s.events| ensures s.events[i].stamp < event.stamp {
      assert s.events[i] in s.events;
    }
    assert s.events[..p] == s.events && s.events[p..] == [];
  }

  // Two booking requests at five milliseconds: the second moves to the sixth.

  const FIVE := EventStruct(BKG_REQ, 5000, 0, 5)
  const SIX := FIVE.(stamp := 6)
  const ANNOUNCED := Then(Fresh, AddCount(BKG_REQ, 2.0))
  const ONE_AT_FIVE := Then(ANNOUNCED, Add(FIVE))
  const TWO_AT_FIVE := Then(ONE_AT_FIVE, Add(FIVE))

  lemma AfterAnnounced()
    ensures After(ANNOUNCED) == AddStatus(FRESH, BKG_REQ, 2.0)
  {
  }

  lemma AddSecond(s: State)
    requires s.events == [FIVE]
    ensures AddEvent(s, FIVE) == s.(events := [FIVE, SIX])
  {
    assert FIVE in s.events;
    FirstFreeUnique(Stamps(s.events), 5, 6);
  }

  lemma TwoAtFive()
    ensures After(TWO_AT_FIVE).events == [FIVE, SIX]
    ensures BKG_REQ in After(TWO_AT_FIVE).statuses
  {
    AfterAnnounced();
    AddLater(After(ANNOUNCED), FIVE);
    AddSecond(AddEvent(After(ANNOUNCED), FIVE));
  }

  lemma TwoOnTime()
    ensures OnTime(TWO_AT_FIVE)
  {
  }

  /** Without the bound on popped stamps: once the first of the two is popped,
      select overlooks the second. */
  lemma SelectOverlooks()
    ensures
      var tr := Then(TWO_AT_FIVE, Pop);
      OnTime(tr) && Holds(After(tr), 5000) && OutcomeOfSelect(After(tr), 5000) == NoSuchKey
  {
    TwoOnTime();
    TwoAtFive();
    Overlooks(After(TWO_AT_FIVE));
  }

  lemma Overlooks(s: State)
    requires s.events == [FIVE, SIX]
    ensures Holds(PopEvent(s), 5000) && OutcomeOfSelect(PopEvent(s), 5000) == NoSuchKey
  {
    assert PopEvent(s).events[0].time == 5000;
  }

  /** Asking for the sixth millisecond finds the moved event's slot, empties the
      queue and fails the closing assertion. */
  lemma SelectRunsDry()
    ensures OnTime(TWO_AT_FIVE) && OutcomeOfSelect(After(TWO_AT_FIVE), 6000) == AssertionFailed
    ensures SelectReach(After(TWO_AT_FIVE), 6000) == 2
  {
    TwoOnTime();
    TwoAtFive();
    RunsDry(After(TWO_AT_FIVE));
  }

  lemma RunsDry(s: State)
    requires s.events == [FIVE, SIX] && BKG_REQ in s.statuses
    ensures OutcomeOfSelect(s, 6000) == AssertionFailed && SelectReach(s, 6000) == 2
  {
  }

  /** A break point that nobody announced stands before a booking request: the
      request is queued and its slot is taken, but select throws on the way. */
  const UNANNOUNCED := EventStruct(BRK_PT, 1000, 0, 1)
  const BLOCKED := Then(Then(ANNOUNCED, Add(UNANNOUNCED)), Add(FIVE))

  lemma SelectThrowsOnTheWay()
    ensures OnTime(BLOCKED) && Holds(After(BLOCKED), 5000) && !KeepsPromise(After(BLOCKED), 5000)
    ensures OutcomeOfSelect(After(BLOCKED), 5000) == Threw
  {
    TwoOnTime();
    BlockedQueue();
    BlockedSelect(After(BLOCKED));
  }

  lemma BlockedQueue()
    ensures After(BLOCKED).events == [UNANNOUNCED, FIVE] && BRK_PT !in After(BLOCKED).statuses
  {
    AfterAnnounced();
    AddBlocked(After(ANNOUNCED));
  }

  lemma AddBlocked(s: State)
    requires s.events == []
    ensures AddEvent(AddEvent(s, UNANNOUNCED), FIVE) == s.(events := [UNANNOUNCED, FIVE])
  {
    AddLater(s, UNANNOUNCED);
    AddLater(s.(events := [UNANNOUNCED]), FIVE);
  }

  lemma BlockedSelect(s: State)
    requires s.events == [UNANNOUNCED, FIVE] && BRK_PT !in s.statuses
    ensures Holds(s, 5000) && OutcomeOfSelect(s, 5000) == Threw && !KeepsPromise(s, 5000)
  {
    assert s.events[1] in s.events && s.events[1].time == 5000;
  }

  /** A booking request at the oldest date-time: select returns true, but pops
      and hands out nothing. */
  const OLDEST := EventStruct(BKG_REQ, DEFAULT_EVENT_OLDEST_DATETIME, 7, 0)
  const AT_OLDEST := Then(ANNOUNCED, Add(OLDEST))

  lemma SelectIgnoresOldest()
    ensures
      var s := After(AT_OLDEST);
      && OnTime(AT_OLDEST) && Reachable(s, DEFAULT_EVENT_OLDEST_DATETIME)
      && OutcomeOfSelect(s, DEFAULT_EVENT_OLDEST_DATETIME) == Selected
      && SelectReach(s, DEFAULT_EVENT_OLDEST_DATETIME) == 0
      && !KeepsPromise(s, DEFAULT_EVENT_OLDEST_DATETIME)
  {
    AfterAnnounced();
    AddLater(After(ANNOUNCED), OLDEST);
    OldestAlone(After(AT_OLDEST));
  }

  lemma OldestAlone(s: State)
    requires s.events == [OLDEST] && BKG_REQ in s.statuses
    ensures Holds(s, 0) && Reachable(s, 0) && 0 in Stamps(s.events)
  {
    assert OLDEST in s.events && s.events[0].time == 0;
    assert TrackedUpTo(s.events, s.statuses.Keys, 0) && Meets(At(0), s.events[0]);
  }

  /** Events at the fifth, the sixth and again the fifth millisecond: the last is
      moved behind the second, so that select plays the second and leaves an
      earlier event in the queue. The run is causal, but not timely. */
  const NEXT := EventStruct(BKG_REQ, 6000, 0, 6)
  const CROSSED := Then(Then(ONE_AT_FIVE, Add(NEXT)), Add(FIVE))

  lemma SelectLeavesEarlier()
    ensures
      var s := After(CROSSED);
      && OnTime(CROSSED) && Causal(CROSSED) && !Timely(CROSSED)
      && OutcomeOfSelect(s, 6000) == Selected && HandsOut(s, 6000)
      && SelectReach(s, 6000) == 2 && s.events[2..] == [FIVE.(stamp := 7)]
      && !KeepsPromise(s, 6000)
  {
    TwoOnTime();
    CrossedQueue();
    CrossedSelect(After(CROSSED));
    CrossedCausal();
    CrossedDisturbed();
  }

  lemma CrossedQueue()
    ensures After(CROSSED).events == [FIVE, NEXT, FIVE.(stamp := 7)]
    ensures BKG_REQ in After(CROSSED).statuses
  {
    AfterAnnounced();
    AddLater(After(ANNOUNCED), FIVE);
    AddNext(After(ONE_AT_FIVE));
  }

  lemma AddNext(s: State)
    requires s.events == [FIVE]
    ensures AddEvent(s, NEXT) == s.(events := [FIVE, NEXT])
    ensures AddEvent(AddEvent(s, NEXT), FIVE) == s.(events := [FIVE, NEXT, FIVE.(stamp := 7)])
  {
    AddLater(s, NEXT);
    AddThird(s.(events := [FIVE, NEXT]));
  }

  lemma AddThird(s: State)
    requires s.events == [FIVE, NEXT]
    ensures Placed(s, FIVE) == FIVE.(stamp := 7)
    ensures AddEvent(s, FIVE) == s.(events := [FIVE, NEXT, FIVE.(stamp := 7)])
  {
    assert FIVE in s.events && NEXT in s.events;
    FirstFreeUnique(Stamps(s.events), 5, 7);
  }

  lemma CrossedSelect(s: State)
    requires s.events == [FIVE, NEXT, FIVE.(stamp := 7)] && BKG_REQ in s.statuses
    ensures OutcomeOfSelect(s, 6000) == Selected && HandsOut(s, 6000) && SelectReach(s, 6000) == 2
    ensures !KeepsPromise(s, 6000)
  {
    assert s.events[1] in s.events && s.events[1].time == 6000 && s.events[2].time == 5000;
    assert s.events[1..] == [NEXT, FIVE.(stamp := 7)];
    assert Reach(s.events[1..], s.statuses.Keys, At(6000)) == 1;
  }

  predicate NoPops(tr: Trace) {
    tr.Then? ==> NoPops(tr.prev) && !tr.op.Pop?
  }

  lemma {:induction false} NoPopsCausal(tr: Trace)
    requires NoPops(tr)
    ensures Causal(tr) && Departed(tr) == []
  {
    if tr.Then? {
      NoPopsCausal(tr.prev);
    }
  }

  lemma CrossedCausal()
    ensures Causal(CROSSED)
  {
    NoPopsCausal(CROSSED);
  }

  lemma CrossedDisturbed()
    ensures !Timely(CROSSED)
  {
    AfterAnnounced();
    AddLater(After(ANNOUNCED), FIVE);
    AddNext(After(ONE_AT_FIVE));
    var h := Past(CROSSED.prev);
    AddThird(h.state);
    AddStep(Past(ONE_AT_FIVE), NEXT);
    assert ArrivalOf(Past(ONE_AT_FIVE), NEXT) in h.queued;
  }

  /** Without causality there is no first come, first served: an event added at
      the stamp that has just been popped gets the freed slot and passes every
      event still queued; the history is then not orderly, and the new arrival
      is unfair to each of them that asked for no later a stamp. */
  lemma {:induction false} LateArrivalOvertakes(tr: Trace, event: EventStruct)
    requires Queued(tr) != [] && event.stamp == Queued(tr)[0].event.stamp
    ensures
      var popped := Then(tr, Pop);
      var arrival := ArrivalOf(Past(popped), event);
      && !Causal(Then(popped, Add(event)))
      && !Orderly(Past(Then(popped, Add(event))))
      && Queued(Then(popped, Add(event))) == [arrival] + Queued(tr)[1..]
      && forall a :: a in Queued(tr)[1..] && a.requested <= arrival.requested ==> !FairPair(a, arrival)
  {
    var popped := Then(tr, Pop);
    PopStep(Past(tr));
    JumpsQueue(Past(popped), event);
    assert Queued(tr)[0] in Departed(popped);
    assert !AbovePopped(popped, event.stamp);
    assert ArrivalOf(Past(popped), event) in Queued(Then(popped, Add(event)));
  }

  lemma JumpsQueue(h: History, event: EventStruct)
    requires Coherent(h) && forall a :: a in h.queued ==> event.stamp < a.event.stamp
    ensures Step(h, Add(event)).queued == [ArrivalOf(h, event)] + h.queued
    ensures ArrivalOf(h, event).event == event
  {
    forall e | e in h.state.events ensures event.stamp < e.stamp {
      var i :| 0 <= i < |h.queued| && h.state.events[i] == e;
      assert h.queued[i] in h.queued;
    }
    FirstFreeUnique(Stamps(h.state.events), event.stamp, event.stamp);
    assert h.queued != [] ==> h.queued[0] in h.queued;
  }
}
