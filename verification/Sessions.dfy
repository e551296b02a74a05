/**
  Sessions: what a program does to one queue, through the queue itself and the
  manager's commands. Every session, performed on a real queue object, ends in
  the state that its trace of primitive operations leads to, and every command
  hands out what that trace says; so what is proved about all traces holds of
  all queues.
 */
module Sessions {
  import opened StdAir
  import opened QueueModel
  import opened Traces
  import opened Accounting
  import opened Insertion
  import opened RunControl
  import opened PoppingLoops
  import opened EventQueueBom
  import EventQueueManager

  datatype Command =
    | Do(op: Op)  // with real amounts, which only the queue itself takes
    | AnnounceCount(kind: EventType, count: int)  // the manager's addStatus
    | CorrectCount(kind: EventType, count: int)   // the manager's updateStatus
    | RunToBreakPoint
    | SelectDateTime(time: DateTime)
    | AskForStatus(kind: EventType)

  datatype Session = Start | Next(prev: Session, command: Command)

  /** What a command hands out. */
  datatype Output =
    | Nothing
    | Stored(event: EventStruct)
    | Handed(event: EventStruct, statusSet: ProgressStatusSet)
    | Ran(event: EventStruct, threw: bool)
    | Chosen(event: EventStruct, outcome: SelectOutcome)
    | Answer(known: bool)

  /** The trace followed by the primitive operations of the command: `run` and
      `select` become as many pops as they make. */
  ghost function ExpandCommand(tr: Trace, command: Command): Trace {
    match command
    case Do(op) => Then(tr, op)
    case AnnounceCount(kind, count) => Then(tr, AddCount(kind, count as real))
    case CorrectCount(kind, count) => Then(tr, UpdateCount(kind, count as real))
    case RunToBreakPoint => Pops(tr, RunReach(After(tr)))
    case SelectDateTime(time) => Pops(tr, SelectReach(After(tr), time))
    case AskForStatus(_) => tr
  }

  /** The state in which the command leaves the queue. */
  ghost function Effect(s: State, command: Command): State {
    match command
    case Do(op) => Apply(s, op)
    case AnnounceCount(kind, count) => AddStatus(s, kind, count as real)
    case CorrectCount(kind, count) => UpdateStatus(s, kind, count as real)
    case RunToBreakPoint => PopMany(s, RunReach(s))
    case SelectDateTime(time) => PopMany(s, SelectReach(s, time))
    case AskForStatus(_) => s
  }

  lemma EffectOfCommand(tr: Trace, command: Command)
    ensures After(ExpandCommand(tr, command)) == Effect(After(tr), command)
  {
    match command
    case Do(_) =>
    case AnnounceCount(_, _) =>
    case CorrectCount(_, _) =>
    case RunToBreakPoint => AfterPops(tr, RunReach(After(tr)));
    case SelectDateTime(time) => AfterPops(tr, SelectReach(After(tr), time));
    case AskForStatus(_) =>
  }

  /** The primitive operations of the session. */
  ghost function Expand(session: Session): Trace {
    match session
    case Start => Fresh
    case Next(prev, command) => ExpandCommand(Expand(prev), command)
  }

  /** What the command hands out. The event variable that the caller passes in is
      blank. */
  ghost function OutputOf(s: State, command: Command, blank: EventStruct): Output {
    match command
    case Do(op) => OutputOfOp(s, op, blank)
    case AnnounceCount(_, _) => Nothing
    case CorrectCount(_, _) => Nothing
    case RunToBreakPoint => OutputOfRun(s, blank)
    case SelectDateTime(time) => Chosen(LastPopped(s, SelectReach(s, time), blank), OutcomeOfSelect(s, time))
    case AskForStatus(kind) => Answer(kind in s.statuses)
  }

  ghost function OutputOfOp(s: State, op: Op, blank: EventStruct): Output {
    match op
    case Add(event) => Stored(Placed(s, event))
    case Pop =>
      Handed(LastPopped(s, 1, blank),
             match OutcomeOfPop(s)
             case Popped(report) => report
             case _ => ProgressStatusSet(BKG_REQ, ProgressStatus(0, 0, 0), ProgressStatus(0, 0, 0)))
    case AddCount(_, _) => Nothing
    case UpdateCount(_, _) => Nothing
    case ResetAll(_) => Nothing
  }

  ghost function OutputOfRun(s: State, blank: EventStruct): Output {
    var last := LastPopped(s, RunReach(s), blank);
    Ran(last, s.events != [] && last.kind !in s.statuses)
  }

  ghost function Outputs(session: Session, blank: EventStruct): seq<Output> {
    match session
    case Start => []
    case Next(prev, command) => Outputs(prev, blank) + [OutputOf(After(Expand(prev)), command, blank)]
  }

  method Perform(session: Session, blank: EventStruct) returns (queue: EventQueue, outputs: seq<Output>)
    ensures fresh(queue) && queue.Valid() && queue.contents == After(Expand(session))
    ensures outputs == Outputs(session, blank)
  {
    match session {
      case Start =>
        queue := new EventQueue();
        outputs := [];
      case Next(prev, command) =>
        queue, outputs := Perform(prev, blank);
        var output := PerformCommand(queue, command, blank);
        EffectOfCommand(Expand(prev), command);
        outputs := outputs + [output];
    }
  }

  method PerformCommand(queue: EventQueue, command: Command, blank: EventStruct) returns (output: Output)
    requires queue.Valid()
    modifies queue
    ensures queue.Valid() && queue.contents == Effect(old(queue.contents), command)
    ensures output == OutputOf(old(queue.contents), command, blank)
    ensures
      match command
      case Do(op) => queue.contents == Apply(old(queue.contents), op)
      case AnnounceCount(kind, count) =>
        queue.contents == QueueModel.AddStatus(old(queue.contents), kind, count as real)
      case CorrectCount(kind, count) =>
        queue.contents == QueueModel.UpdateStatus(old(queue.contents), kind, count as real)
      case AskForStatus(kind) =>
        queue.contents == old(queue.contents) && output == Answer(kind in queue.contents.statuses)
      case RunToBreakPoint => output.Ran?
      case SelectDateTime(_) => output.Chosen?
  {
    match command {
      case Do(op) =>
        output := PerformOp(queue, op, blank);
      case AnnounceCount(kind, count) =>
        EventQueueManager.AddStatus(queue, kind, count);
        output := Nothing;
      case CorrectCount(kind, count) =>
        EventQueueManager.UpdateStatus(queue, kind, count);
        output := Nothing;
      case RunToBreakPoint =>
        var event, threw := EventQueueManager.Run(queue, blank);
        output := Ran(event, threw);
      case SelectDateTime(time) =>
        var event, outcome := EventQueueManager.Select(queue, blank, time);
        output := Chosen(event, outcome);
      case AskForStatus(kind) =>
        output := Answer(queue.HasProgressStatus(kind));
    }
  }

  method PerformOp(queue: EventQueue, op: Op, blank: EventStruct) returns (output: Output)
    requires queue.Valid()
    modifies queue
    ensures queue.Valid() && queue.contents == Apply(old(queue.contents), op)
    ensures output == OutputOfOp(old(queue.contents), op, blank)
  {
    output := Nothing;
    match op {
      case Add(event) =>
        var stored := EventQueueManager.AddEvent(queue, event);
        output := Stored(stored);
      case Pop =>
        var event, statusSet := EventQueueManager.PopEvent(queue, blank);
        output := Handed(event, statusSet);
      case AddCount(kind, amount) => queue.AddStatus(kind, amount);
      case UpdateCount(kind, amount) => queue.UpdateStatus(kind, amount);
      case ResetAll(zeroActual) => EventQueueManager.Reset(queue, zeroActual);
    }
  }

  // What the outputs mean, in terms of the states before and after the command

  /** An addition hands out the event that has joined the queue, moved at most. */
  lemma AddOutput(s: State, event: EventStruct, blank: EventStruct)
    requires Sorted(s.events)
    ensures
      var output := OutputOf(s, Do(Add(event)), blank);
      && output.Stored?
      && output.event == event.(stamp := output.event.stamp)
      && multiset(Effect(s, Do(Add(event))).events) == multiset(s.events) + multiset{output.event}
  {
    AddEventLands(s, event);
    AddEventKeepsTheRest(s, event);
  }

  /** A pop hands out the event that has left the queue, with the statuses as they
      now stand; or, where the queue throws, the manager's zeros. */
  lemma PopOutput(s: State, blank: EventStruct)
    ensures
      var after := Effect(s, Do(Pop));
      var output := OutputOf(s, Do(Pop), blank);
      && output.Handed?
      && (s.events == [] ==> after == s && output.event == blank)
      && (s.events != [] ==> s.events == [output.event] + after.events)
      && output.statusSet ==
         if s.events != [] && output.event.kind in after.statuses
         then ProgressStatusSet(output.event.kind, after.statuses[output.event.kind], after.overall)
         else ProgressStatusSet(BKG_REQ, ProgressStatus(0, 0, 0), ProgressStatus(0, 0, 0))
  {
    if s.events != [] {
      assert s.events == [s.events[0]] + s.events[1..];
    }
  }

  /** The last of the events that have left the queue, or blank if none has. */
  ghost predicate HandsOutLast(before: seq<EventStruct>, after: seq<EventStruct>, event: EventStruct,
                               blank: EventStruct)
  {
    && |after| <= |before| && after == before[|before| - |after|..]
    && event == if |after| == |before| then blank else before[|before| - |after| - 1]
  }

  lemma LastHandedOut(s: State, n: nat, blank: EventStruct)
    requires n <= |s.events|
    ensures HandsOutLast(s.events, PopMany(s, n).events, LastPopped(s, n, blank), blank)
    ensures |PopMany(s, n).events| == |s.events| - n
  {
    PopManyEffect(s, n);
  }

  /** A run hands out the last event that has left the queue, if any has, and
      throws exactly when that event's type has no status; otherwise it has left
      the queue empty or hands out a break point. */
  lemma RunOutput(s: State, blank: EventStruct)
    ensures
      var after := Effect(s, RunToBreakPoint).events;
      var output := OutputOf(s, RunToBreakPoint, blank);
      && output.Ran?
      && HandsOutLast(s.events, after, output.event, blank)
      && (output.threw <==> |after| < |s.events| && output.event.kind !in s.statuses)
      && (output.threw || after == [] || output.event.kind == BRK_PT)
  {
    LastHandedOut(s, RunReach(s), blank);
    RunSays(s);
  }

  /** A selection hands out the last event that has left the queue, if any has;
      when it reports success for a date-time other than the oldest, that event
      has the date-time, and when it throws, that event's type has no status. */
  lemma SelectOutput(s: State, time: DateTime, blank: EventStruct)
    ensures
      var output := OutputOf(s, SelectDateTime(time), blank);
      && output.Chosen?
      && HandsOutLast(s.events, Effect(s, SelectDateTime(time)).events, output.event, blank)
      && (output.outcome == Selected && time != DEFAULT_EVENT_OLDEST_DATETIME ==> output.event.time == time)
      && (output.outcome == Threw ==> output.event.kind !in s.statuses)
  {
    LastHandedOut(s, SelectReach(s, time), blank);
    SelectSays(s, time);
  }

  /** The question is answered by whether a status was ever added for the type. */
  lemma AskOutput(tr: Trace, kind: EventType, blank: EventStruct)
    ensures OutputOf(After(tr), AskForStatus(kind), blank) == Answer(HasStatus(tr, kind))
  {
    HasStatusIsTracked(tr, kind);
  }

  // Sessions that use the manager only

  /** Announcements and corrections go through the manager, so their amounts are
      integers. The other operations have a manager command of the same effect. */
  predicate ThroughManager(session: Session) {
    match session
    case Start => true
    case Next(prev, command) =>
      ThroughManager(prev) && (command.Do? ==> !command.op.AddCount? && !command.op.UpdateCount?)
  }

  /** At the end of every such session, and so at every point of it, the overall
      expected and actual numbers are the sums over the types. */
  lemma {:induction false} ManagerSessionsBalance(session: Session)
    requires ThroughManager(session)
    ensures WholeAmounts(Expand(session)) && Balanced(After(Expand(session)))
  {
    WholeThroughManager(session);
    WholeAmountsBalance(Expand(session));
  }

  lemma {:induction false} WholeThroughManager(session: Session)
    requires ThroughManager(session)
    ensures WholeAmounts(Expand(session))
  {
    if session.Next? {
      WholeThroughManager(session.prev);
      var tr := Expand(session.prev);
      match session.command
      case RunToBreakPoint => WholePops(tr, RunReach(After(tr)));
      case SelectDateTime(time) => WholePops(tr, SelectReach(After(tr), time));
      case _ =>
    }
  }

  lemma {:induction false} WholePops(tr: Trace, n: nat)
    ensures WholeAmounts(Pops(tr, n)) <==> WholeAmounts(tr)
  {
    if n > 0 {
      WholePops(tr, n - 1);
    }
  }
}
