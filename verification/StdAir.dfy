/**
  The few pieces of the StdAir library that the event queue relies on. StdAir
  itself is not part of this model: every declaration here is an assumption
  about it, and README.md lists them.
 */
module StdAir {

  /** The event types that the queue's own code names, and all the others. */
  datatype EventType = BKG_REQ | BRK_PT | Other(code: nat)

  /** A date-time, in clock ticks (microseconds) since the oldest date-time. */
  type DateTime = int

  const DEFAULT_EVENT_OLDEST_DATETIME: DateTime := 0

  const TICKS_PER_MILLISECOND := 1000

  /** Whole milliseconds of a duration given in ticks, truncated toward zero. */
  function TotalMilliseconds(ticks: int): (ms: int)
    ensures ticks >= 0 ==> ms * 1000 <= ticks < (ms + 1) * 1000
    ensures ticks <= 0 ==> (ms - 1) * 1000 < ticks <= ms * 1000
  {
    if ticks >= 0 then ticks / TICKS_PER_MILLISECOND else -(-ticks / TICKS_PER_MILLISECOND)
  }

  /** An event: its type, the date-time of its content, a handle on the content
      itself, and the millisecond stamp under which it is to be queued. */
  datatype EventStruct = EventStruct(kind: EventType, time: DateTime, content: int, stamp: int) {
    function IncrementEventTimeStamp(): EventStruct {
      this.(stamp := stamp + 1)
    }
  }

  /** The three counters of a progress status. */
  datatype ProgressStatus = ProgressStatus(current: int, expected: int, actual: int) {
    /** The prefix increment of the C++ class. */
    function Increment(): ProgressStatus {
      this.(current := current + 1)
    }

    /** Resets the current number of events, not the expected one. Whether the
        actual number is zeroed as well is left open. */
    function Reset(zeroActual: bool): ProgressStatus {
      ProgressStatus(0, expected, if zeroActual then 0 else actual)
    }
  }

  const DEFAULT_PROGRESS_STATUS := ProgressStatus(0, 0, 0)

  /** The status of a type of which `n` events are announced. */
  function InitialStatus(n: int): ProgressStatus {
    ProgressStatus(0, n, n)
  }

  /** What a pop reports: the type of the event, the status of that type and
      the overall status. */
  datatype ProgressStatusSet =
    ProgressStatusSet(kind: EventType, typeSpecific: ProgressStatus, overall: ProgressStatus)

  /** A status set built from an event type alone. */
  function DefaultStatusSet(kind: EventType): ProgressStatusSet {
    ProgressStatusSet(kind, DEFAULT_PROGRESS_STATUS, DEFAULT_PROGRESS_STATUS)
  }

  /** The C++ conversion of a floating-point number to an integer count. */
  function Truncate(x: real): (n: int)
    ensures x >= 0.0 ==> n as real <= x < (n + 1) as real
    ensures x <= 0.0 ==> (n - 1) as real < x <= n as real
  {
    if x >= 0.0 then x.Floor else -(-x).Floor
  }
}
