/**
  Sums over the progress statuses of all the event types.
 */
module Totals {
  import opened StdAir

  type StatusMap = map<EventType, ProgressStatus>

  ghost function Plus(a: ProgressStatus, b: ProgressStatus): ProgressStatus {
    ProgressStatus(a.current + b.current, a.expected + b.expected, a.actual + b.actual)
  }

  ghost function Pick(m: StatusMap): (kind: EventType)
    requires m != map[]
    ensures kind in m
  {
    var kind :| kind in m; kind
  }

  ghost function Total(m: StatusMap): ProgressStatus
    decreases |m|
  {
    if m == map[] then DEFAULT_PROGRESS_STATUS
    else
      var kind := Pick(m);
      RemoveShrinks(m, kind);
      Plus(m[kind], Total(m - {kind}))
  }

  lemma RemoveShrinks(m: StatusMap, kind: EventType)
    requires kind in m
    ensures |m - {kind}| < |m|
  {
  }

  /** The sum does not depend on the order of the types. */
  lemma {:induction false} TotalSplit(m: StatusMap, kind: EventType)
    requires kind in m
    ensures Total(m) == Plus(m[kind], Total(m - {kind}))
    decreases |m|
  {
    var first := Pick(m);
    if first != kind {
      RemoveShrinks(m, first);
      RemoveShrinks(m, kind);
      TotalSplit(m - {first}, kind);
      TotalSplit(m - {kind}, first);
      assert m - {first} - {kind} == m - {kind} - {first};
    }
  }

  lemma TotalUpdate(m: StatusMap, kind: EventType, status: ProgressStatus)
    ensures Total(m[kind := status]) == Plus(status, Total(m - {kind}))
  {
    var m' := m[kind := status];
    TotalSplit(m', kind);
    assert m' - {kind} == m - {kind};
  }

  lemma TotalOfNew(m: StatusMap, kind: EventType)
    requires kind !in m
    ensures m - {kind} == m
  {
  }

  lemma {:induction false} TotalReset(m: StatusMap, zeroActual: bool)
    ensures Total(map kind | kind in m :: m[kind].Reset(zeroActual)) == Total(m).Reset(zeroActual)
    decreases |m|
  {
    var m' := map kind | kind in m :: m[kind].Reset(zeroActual);
    if m == map[] {
      assert m' == map[];
    } else {
      var first := Pick(m);
      RemoveShrinks(m, first);
      TotalReset(m - {first}, zeroActual);
      TotalSplit(m', first);
      assert m' - {first} ==
        map kind | kind in m - {first} :: (m - {first})[kind].Reset(zeroActual);
    }
  }

  /** If no type has run more events than expected, the totals agree exactly
      when each type has run all of its expected events. */
  lemma {:induction false} TotalComplete(m: StatusMap)
    requires forall kind :: kind in m ==> m[kind].current <= m[kind].expected
    ensures Total(m).current <= Total(m).expected
    ensures Total(m).current == Total(m).expected
            <==> forall kind :: kind in m ==> m[kind].current == m[kind].expected
    decreases |m|
  {
    if m != map[] {
      var first := Pick(m);
      var rest := m - {first};
      RemoveShrinks(m, first);
      TotalComplete(rest);
      assert forall kind :: kind in m ==> kind == first || (kind in rest && rest[kind] == m[kind]);
    }
  }
}
