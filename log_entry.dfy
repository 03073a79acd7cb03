/** The demo applications' `LogEntry` record. */
module LogEntries {
  import opened Wrappers
  import opened Time

  /**
   * A log entry: its level, its message and its local date-time, each of
   * which may be null (the setters accept null). The `id` field is never
   * read by the services and is left out.
   */
  datatype LogEntry = LogEntry(level: Option<string>, message: Option<string>, timestamp: Option<LocalDateTime>)

  /** `new LogEntry(level, message)`: stamped with the clock reading `now`. */
  function NewLogEntry(level: Option<string>, message: Option<string>, now: LocalDateTime): LogEntry
  {
    LogEntry(level, message, Some(now))
  }
}
