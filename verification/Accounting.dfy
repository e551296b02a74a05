/**
  The progress counters, over whole runs.
 */
module Accounting {
  import opened StdAir
  import opened QueueModel
  import opened Traces
  import opened Totals

  // Current numbers

  /** In every run, including pops that end in an exception, the overall current
      number is the number of events popped since the last reset, and with the
      events still queued it makes up the events added since then. */
  lemma {:induction false} EventsConserved(tr: Trace)
    ensures After(tr).overall.current == |Departed(tr)|
    ensures After(tr).overall.current + |After(tr).events| == |Arrivals(tr)|
  {
    if tr.Then? {
      EventsConserved(tr.prev);
      ConservedByStep(Past(tr.prev), tr.op);
    }
  }

  lemma ConservedByStep(h: History, op: Op)
    requires Coherent(h)
    requires h.state.overall.current == |h.departed|
    requires |h.departed| + |h.queued| == |h.arrivals|
    ensures
      var h' := Step(h, op);
      h'.state.overall.current == |h'.departed| && |h'.departed| + |h'.queued| == |h'.arrivals|
  {
  }

  /** The pops of events of the given type since the last reset or the last
      addStatus for the type, whichever is later. */
  ghost function PopsOf(tr: Trace, kind: EventType): nat {
    match tr
    case Fresh => 0
    case Then(prev, Pop) => PopsOf(prev, kind) + if PopsNext(prev, kind) then 1 else 0
    case Then(prev, AddCount(k, _)) => if k == kind then 0 else PopsOf(prev, kind)
    case Then(prev, ResetAll(_)) => 0
    case Then(prev, _) => PopsOf(prev, kind)
  }

  /** The next event to be popped is of the given type. */
  ghost predicate PopsNext(tr: Trace, kind: EventType) {
    After(tr).events != [] && After(tr).events[0].kind == kind
  }

  lemma {:induction false} CurrentOfType(tr: Trace, kind: EventType)
    requires HasStatus(tr, kind)
    ensures kind in After(tr).statuses && After(tr).statuses[kind].current == PopsOf(tr, kind)
  {
    HasStatusIsTracked(tr, kind);
    HasStatusIsTracked(tr.prev, kind);
    if HasStatus(tr.prev, kind) {
      CurrentOfType(tr.prev, kind);
      CurrentStep(After(tr.prev), tr.op, kind);
    }
  }

  lemma CurrentStep(s: State, op: Op, kind: EventType)
    requires kind in s.statuses
    ensures
      var was := s.statuses[kind].current;
      && kind in Apply(s, op).statuses
      && Apply(s, op).statuses[kind].current ==
         match op
         case Pop => was + (if s.events != [] && s.events[0].kind == kind then 1 else 0)
         case AddCount(k, _) => if k == kind then 0 else was
         case ResetAll(_) => 0
         case _ => was
  {
  }

  /** The pops since the last reset that no type accounts for: those of a type
      without status, and those that a later addStatus overwrote with zero. */
  ghost function Uncounted(tr: Trace): nat {
    match tr
    case Fresh => 0
    case Then(prev, Pop) =>
      var events := After(prev).events;
      Uncounted(prev) + if events != [] && !HasStatus(prev, events[0].kind) then 1 else 0
    case Then(prev, AddCount(kind, _)) =>
      Uncounted(prev) + if HasStatus(prev, kind) then PopsOf(prev, kind) else 0
    case Then(prev, ResetAll(_)) => 0
    case Then(prev, _) => Uncounted(prev)
  }

  /** The exact gap between the overall current number and the sum over types. */
  lemma {:induction false} CurrentGap(tr: Trace)
    ensures After(tr).overall.current == Total(After(tr).statuses).current + Uncounted(tr)
  {
    if tr.Then? {
      CurrentGap(tr.prev);
      var s := After(tr.prev);
      match tr.op
      case Add(_) =>
      case Pop =>
        if s.events != [] {
          var kind := s.events[0].kind;
          HasStatusIsTracked(tr.prev, kind);
          if kind in s.statuses {
            TotalSplit(s.statuses, kind);
            TotalUpdate(s.statuses, kind, s.statuses[kind].Increment());
          }
        }
      case AddCount(kind, amount) =>
        HasStatusIsTracked(tr.prev, kind);
        TotalMerge(s.statuses, kind, InitialStatus(amount.Floor));
        if kind in s.statuses {
          CurrentOfType(tr.prev, kind);
        }
      case UpdateCount(kind, amount) => TotalAfterUpdate(s, kind, amount);
      case ResetAll(zeroActual) => TotalReset(s.statuses, zeroActual);
    }
  }

  lemma TotalMerge(m: StatusMap, kind: EventType, status: ProgressStatus)
    ensures
      var total := Total(MergeStatus(m, kind, status));
      && total.current == Total(m).current + status.current - (if kind in m then m[kind].current else 0)
      && total.expected == Total(m).expected + status.expected
      && total.actual == Total(m).actual + status.actual
  {
    TotalUpdate(m, kind, MergeStatus(m, kind, status)[kind]);
    if kind in m {
      TotalSplit(m, kind);
    } else {
      TotalOfNew(m, kind);
    }
  }

  lemma TotalAfterUpdate(s: State, kind: EventType, amount: real)
    ensures
      var s' := UpdateStatus(s, kind, amount);
      && Total(s'.statuses).current == Total(s.statuses).current
      && Total(s'.statuses).expected == Total(s.statuses).expected
      && Total(s'.statuses).actual - Total(s.statuses).actual == s'.overall.actual - s.overall.actual
  {
    if kind in s.statuses {
      TotalSplit(s.statuses, kind);
      TotalUpdate(s.statuses, kind, s.statuses[kind].(actual := amount.Floor));
    }
  }

  /** Every status set that a pop returns carries the exact numbers of pops so
      far, this one included, and shows the statuses as they stand afterwards; a
      pop throws exactly on an empty queue or on a type for which no status was
      ever added. */
  lemma PopReportsExactCounts(tr: Trace)
    ensures
      var s := After(tr);
      match OutcomeOfPop(s)
      case QueueEmpty => s.events == []
      case NoProgressStatus => s.events != [] && !HasStatus(tr, s.events[0].kind)
      case Popped(report) =>
        && s.events != [] && HasStatus(tr, s.events[0].kind)
        && report.kind == s.events[0].kind
        && report.overall.current == |Departed(tr)| + 1
        && report.typeSpecific.current == PopsOf(tr, report.kind) + 1
        && report.kind in After(Then(tr, Pop)).statuses
        && report.typeSpecific == After(Then(tr, Pop)).statuses[report.kind]
        && report.overall == After(Then(tr, Pop)).overall
  {
    var s := After(tr);
    EventsConserved(tr);
    if s.events != [] {
      HasStatusIsTracked(tr, s.events[0].kind);
      if HasStatus(tr, s.events[0].kind) {
        CurrentOfType(tr, s.events[0].kind);
      }
    }
  }

  // Expected and actual numbers

  /** The overall expected and actual numbers are the sums over the types. */
  ghost predicate Balanced(s: State) {
    && s.overall.expected == Total(s.statuses).expected
    && s.overall.actual == Total(s.statuses).actual
  }

  /** Adding the amount before or after rounding makes no difference. */
  predicate RoundsAlike(n: int, amount: real) {
    amount == amount.Floor as real || n as real + amount >= 0.0
  }

  lemma RoundingAgrees(n: int, amount: real)
    ensures Truncate(n as real + amount) == n + amount.Floor <==> RoundsAlike(n, amount)
  {
  }

  /** addStatus keeps the balance exactly when both roundings agree: the
      per-type number grows by the floor of the amount, while the overall
      number is truncated after the addition. */
  lemma AddStatusKeepsBalance(s: State, kind: EventType, amount: real)
    requires Balanced(s)
    ensures Balanced(AddStatus(s, kind, amount))
            <==> RoundsAlike(s.overall.expected, amount) && RoundsAlike(s.overall.actual, amount)
  {
    TotalMerge(s.statuses, kind, InitialStatus(amount.Floor));
    RoundingAgrees(s.overall.expected, amount);
    RoundingAgrees(s.overall.actual, amount);
  }

  lemma OtherOpsKeepBalance(s: State, op: Op)
    requires Balanced(s) && !op.AddCount?
    ensures Balanced(Apply(s, op))
  {
    match op
    case Add(_) =>
    case Pop =>
      if s.events != [] && s.events[0].kind in s.statuses {
        var kind := s.events[0].kind;
        TotalSplit(s.statuses, kind);
        TotalUpdate(s.statuses, kind, s.statuses[kind].Increment());
      }
    case UpdateCount(kind, amount) => TotalAfterUpdate(s, kind, amount);
    case ResetAll(zeroActual) => TotalReset(s.statuses, zeroActual);
  }

  /** The queue is balanced now and was so at every earlier point of the run. */
  ghost predicate AlwaysBalanced(tr: Trace) {
    Balanced(After(tr)) && (tr.Then? ==> AlwaysBalanced(tr.prev))
  }

  /** At each addStatus of the run, the amount was whole or large enough. */
  ghost predicate RoundingSafe(tr: Trace) {
    match tr
    case Fresh => true
    case Then(prev, op) =>
      && RoundingSafe(prev)
      && (op.AddCount? ==>
            && RoundsAlike(After(prev).overall.expected, op.amount)
            && RoundsAlike(After(prev).overall.actual, op.amount))
  }

  /** The runs that stay balanced throughout, exactly. */
  lemma {:induction false} BalancedRuns(tr: Trace)
    ensures AlwaysBalanced(tr) <==> RoundingSafe(tr)
  {
    if tr.Then? {
      BalancedRuns(tr.prev);
      if AlwaysBalanced(tr.prev) {
        if tr.op.AddCount? {
          AddStatusKeepsBalance(After(tr.prev), tr.op.kind, tr.op.amount);
        } else {
          OtherOpsKeepBalance(After(tr.prev), tr.op);
        }
      }
    }
  }

  /** The manager passes integer counts only. */
  predicate WholeAmounts(tr: Trace) {
    tr.Then? ==>
      && WholeAmounts(tr.prev)
      && (tr.op.AddCount? ==> tr.op.amount == tr.op.amount.Floor as real)
  }

  predicate NonNegativeAmounts(tr: Trace) {
    tr.Then? ==>
      && NonNegativeAmounts(tr.prev)
      && (tr.op.AddCount? || tr.op.UpdateCount? ==> tr.op.amount >= 0.0)
  }

  lemma {:induction false} WholeAmountsBalance(tr: Trace)
    requires WholeAmounts(tr)
    ensures RoundingSafe(tr) && Balanced(After(tr))
  {
    if tr.Then? {
      WholeAmountsBalance(tr.prev);
    }
    BalancedRuns(tr);
  }

  ghost predicate NonNegative(m: StatusMap) {
    forall kind :: kind in m ==> m[kind].expected >= 0 && m[kind].actual >= 0
  }

  lemma NonNegativeStep(s: State, op: Op)
    requires NonNegative(s.statuses)
    requires op.AddCount? || op.UpdateCount? ==> op.amount >= 0.0
    ensures NonNegative(Apply(s, op).statuses)
  {
  }

  /** With amounts that are not negative, whole or not, every number stays
      balanced and none becomes negative, whatever updateStatus subtracts. */
  lemma {:induction false} NonNegativeAmountsBalance(tr: Trace)
    requires NonNegativeAmounts(tr)
    ensures RoundingSafe(tr) && Balanced(After(tr))
    ensures After(tr).overall.expected >= 0 && After(tr).overall.actual >= 0
    ensures NonNegative(After(tr).statuses)
  {
    if tr.Then? {
      NonNegativeAmountsBalance(tr.prev);
      NonNegativeStep(After(tr.prev), tr.op);
    }
    BalancedRuns(tr);
    TotalNonNegative(After(tr).statuses);
  }

  lemma {:induction false} TotalNonNegative(m: StatusMap)
    requires NonNegative(m)
    ensures Total(m).expected >= 0 && Total(m).actual >= 0
    decreases |m|
  {
    if m != map[] {
      RemoveShrinks(m, Pick(m));
      TotalNonNegative(m - {Pick(m)});
    }
  }

  /** The sum of the rounded-down amounts announced, over the whole run. */
  ghost function Announced(tr: Trace): int {
    match tr
    case Fresh => 0
    case Then(prev, AddCount(_, amount)) => Announced(prev) + amount.Floor
    case Then(prev, _) => Announced(prev)
  }

  ghost function AnnouncedOf(tr: Trace, kind: EventType): int {
    match tr
    case Fresh => 0
    case Then(prev, AddCount(k, amount)) =>
      AnnouncedOf(prev, kind) + if k == kind then amount.Floor else 0
    case Then(prev, _) => AnnouncedOf(prev, kind)
  }

  /** No updateStatus, and no reset that zeroes the actual numbers. */
  ghost predicate ActualUntouched(tr: Trace) {
    tr.Then? ==> ActualUntouched(tr.prev) && !tr.op.UpdateCount? && tr.op != ResetAll(true)
  }

  /** Fractions are lost once per announcement and never add up. */
  lemma {:induction false} FractionalCounts(tr: Trace)
    requires RoundingSafe(tr)
    ensures After(tr).overall.expected == Announced(tr)
    ensures ActualUntouched(tr) ==> After(tr).overall.actual == Announced(tr)
  {
    if tr.Then? {
      FractionalCounts(tr.prev);
      OverallStep(After(tr.prev), tr.op);
    }
  }

  lemma OverallStep(s: State, op: Op)
    requires op.AddCount? ==>
               RoundsAlike(s.overall.expected, op.amount) && RoundsAlike(s.overall.actual, op.amount)
    ensures
      var s' := Apply(s, op);
      var added := if op.AddCount? then op.amount.Floor else 0;
      && s'.overall.expected == s.overall.expected + added
      && (!op.UpdateCount? && op != ResetAll(true) ==> s'.overall.actual == s.overall.actual + added)
  {
  }

  lemma {:induction false} FractionalCountsOfType(tr: Trace, kind: EventType)
    ensures ShowsAnnounced(After(tr).statuses, kind, AnnouncedOf(tr, kind), ActualUntouched(tr))
  {
    if tr.Then? {
      FractionalCountsOfType(tr.prev, kind);
      AnnounceStep(After(tr.prev), tr.op, kind, AnnouncedOf(tr.prev, kind), ActualUntouched(tr.prev));
    }
  }

  /** The type's expected number, and its actual number if nothing else has
      touched it, is the given sum of announcements. */
  ghost predicate ShowsAnnounced(m: StatusMap, kind: EventType, announced: int, untouched: bool) {
    if kind in m then m[kind].expected == announced && (untouched ==> m[kind].actual == announced)
    else announced == 0
  }

  lemma AnnounceStep(s: State, op: Op, kind: EventType, announced: int, untouched: bool)
    requires ShowsAnnounced(s.statuses, kind, announced, untouched)
    ensures ShowsAnnounced(
              Apply(s, op).statuses, kind,
              announced + (if op.AddCount? && op.kind == kind then op.amount.Floor else 0),
              untouched && !op.UpdateCount? && op != ResetAll(true))
  {
  }

  // updateStatus

  /** The actual number of a type as its history tells it: what the last
      updateStatus said, plus what was announced later. */
  ghost function ActualOf(tr: Trace, kind: EventType): int {
    match tr
    case Fresh => 0
    case Then(prev, AddCount(k, amount)) => ActualOf(prev, kind) + if k == kind then amount.Floor else 0
    case Then(prev, UpdateCount(k, amount)) =>
      if k == kind && HasStatus(prev, kind) then amount.Floor else ActualOf(prev, kind)
    case Then(prev, ResetAll(zeroActual)) => if zeroActual then 0 else ActualOf(prev, kind)
    case Then(prev, _) => ActualOf(prev, kind)
  }

  lemma {:induction false} ActualOfType(tr: Trace, kind: EventType)
    ensures ActualOf(tr, kind) == ShownActual(After(tr).statuses, kind)
  {
    if tr.Then? {
      ActualOfType(tr.prev, kind);
      HasStatusIsTracked(tr.prev, kind);
      ActualStep(After(tr.prev), tr.op, kind);
    }
  }

  ghost function ShownActual(m: StatusMap, kind: EventType): int {
    if kind in m then m[kind].actual else 0
  }

  lemma ActualStep(s: State, op: Op, kind: EventType)
    ensures
      var was := ShownActual(s.statuses, kind);
      ShownActual(Apply(s, op).statuses, kind) ==
      match op
      case AddCount(k, amount) => if k == kind then was + amount.Floor else was
      case UpdateCount(k, amount) => if k == kind && kind in s.statuses then amount.Floor else was
      case ResetAll(zeroActual) => if zeroActual then 0 else was
      case _ => was
  {
  }
}
