/**
 * app/.../TraceEvent.kt: one event of the Chrome Trace Event Format, with the field
 * defaults of the data class (a missing `name`, `dur`, `s` and `args`, process and
 * thread 1, empty category).
 */
module TraceEvents {
  import opened Values

  datatype TraceEvent = TraceEvent(
    name: Option<string> := None,
    phaseType: Option<string>,
    timestamp: int,
    duration: Option<int> := None,
    processId: Option<int> := Some(1),
    threadId: Option<int> := Some(1),
    categories: Option<string> := Some(""),
    scope: Option<string> := None,
    arguments: Option<Fields> := None)

  /**
   * `TraceEvent(phaseType = ..., timestamp = ...)`: the two fields without a default are
   * the only ones a caller must give; every other field takes its default.
   */
  function NewTraceEvent(phaseType: Option<string>, timestamp: int): (e: TraceEvent)
    ensures e.phaseType == phaseType && e.timestamp == timestamp
    ensures e.name.None? && e.duration.None? && e.scope.None? && e.arguments.None?
    ensures e.processId == Some(1) && e.threadId == Some(1)
    ensures e.categories == Some("")
  {
    TraceEvent(phaseType := phaseType, timestamp := timestamp)
  }

  /** The phase letters of the format that the converter emits. */
  const Begin: string := "B"
  const End: string := "E"
  const Instant: string := "i"
}
