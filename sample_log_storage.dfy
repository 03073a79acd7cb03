/**
 * The elasticsearch-logging-sample `LogStorageService`: entries are queued
 * in an unbounded queue and `storeLogsToFile` drains all of them into
 * `application_logs.txt`, one line per entry. The file is a `LogFile`
 * object holding the lines written to it; where an `IOException` strikes
 * is a parameter, and so is the `yyyy-MM-dd HH:mm:ss` formatter.
 */
module SampleLogStorage {
  import opened Wrappers
  import opened JavaText
  import opened Time
  import opened LogEntries

  const LogFilePath: string := "application_logs.txt"

  /** The entries whose line can be formatted: those with a timestamp. */
  predicate Printable(e: LogEntry)
  {
    e.timestamp.Some?
  }

  /** `String.format("[%s] %s - %s%n", ...)`: the formatted timestamp in brackets, level, dash, message. */
  function LogLine(e: LogEntry, format: LocalDateTime -> string): (line: string)
    requires Printable(e)
  {
    "[" + format(e.timestamp.value) + "] " + ValueOf(e.level) + " - " + ValueOf(e.message) + "\n"
  }

  /** A line reads back as its parts: the bracketed timestamp, then level and message, then the newline. */
  lemma LogLineParts(e: LogEntry, format: LocalDateTime -> string)
    requires Printable(e)
    ensures var line := LogLine(e, format);
      var stamp := format(e.timestamp.value);
      var rest := ValueOf(e.level) + " - " + ValueOf(e.message);
      && line == "[" + stamp + "] " + rest + "\n"
      && line[0] == '[' && line[1..|stamp| + 1] == stamp && line[|stamp| + 1..|stamp| + 3] == "] "
      && line[|stamp| + 3..|line| - 1] == rest && line[|line| - 1] == '\n'
  {
  }

  /** The lines of a batch, in order. */
  function LogLines(batch: seq<LogEntry>, format: LocalDateTime -> string): seq<string>
    requires forall k :: 0 <= k < |batch| ==> Printable(batch[k])
    decreases |batch|
  {
    if batch == [] then []
    else LogLines(batch[..|batch| - 1], format) + [LogLine(batch[|batch| - 1], format)]
  }

  /** One line per entry, each at its entry's position. */
  lemma {:induction false} LogLinesShape(batch: seq<LogEntry>, format: LocalDateTime -> string)
    requires forall k :: 0 <= k < |batch| ==> Printable(batch[k])
    ensures |LogLines(batch, format)| == |batch|
    ensures forall k :: 0 <= k < |batch| ==> LogLines(batch, format)[k] == LogLine(batch[k], format)
    decreases |batch|
  {
    if batch != [] {
      LogLinesShape(batch[..|batch| - 1], format);
    }
  }

  /**
   * The index of the first entry without a timestamp (`|batch|` when every
   * entry has one): formatting it throws `NullPointerException`.
   */
  function FirstNullTimestamp(batch: seq<LogEntry>): (f: nat)
    ensures f <= |batch|
    ensures forall k :: 0 <= k < f ==> batch[k].timestamp.Some?
    ensures f < |batch| ==> batch[f].timestamp.None?
    decreases |batch|
  {
    if batch == [] || batch[0].timestamp.None? then 0
    else 1 + FirstNullTimestamp(batch[1..])
  }

  /**
   * Where an `IOException` strikes: `Some(0)` when the file cannot be
   * opened, `Some(k + 1)` when writing line `k` fails, `None` when nothing
   * fails.
   */
  type IoFailure = Option<nat>

  /** How `storeLogsToFile` ends. */
  datatype StoreOutcome =
    | Completed
      /** The `IOException` was caught and printed to standard error. */
    | WriteFailed
      /** An entry without a timestamp: the exception escapes to the caller. */
    | NullTimestamp

  /** Whether the `IOException` strikes before the loop reaches line `f`. */
  predicate FailsBefore(failure: IoFailure, f: nat)
  {
    failure.Some? && failure.value <= f
  }

  /** The number of lines that reach the file. */
  function LinesWritten(batch: seq<LogEntry>, failure: IoFailure): (n: nat)
    ensures n <= FirstNullTimestamp(batch) <= |batch|
  {
    var f := FirstNullTimestamp(batch);
    if FailsBefore(failure, f) then (if failure.value == 0 then 0 else failure.value - 1)
    else f
  }

  /** How a store of `batch` ends. */
  function Outcome(batch: seq<LogEntry>, failure: IoFailure): StoreOutcome
  {
    var f := FirstNullTimestamp(batch);
    if batch == [] then Completed
    else if FailsBefore(failure, f) then WriteFailed
    else if f < |batch| then NullTimestamp
    else Completed
  }

  /** Without any failure, every drained entry is written, one line each. */
  lemma CompleteStoreWritesAll(batch: seq<LogEntry>, failure: IoFailure)
    requires Outcome(batch, failure) == Completed
    ensures LinesWritten(batch, failure) == |batch|
  {
  }

  /** The file, as the lines written to it in order; it is only ever appended to. */
  class LogFile {
    const path: string
    var lines: seq<string>

    constructor(path: string)
      ensures this.path == path && lines == []
    {
      this.path := path;
      lines := [];
    }

    /** `writer.write(line)` on a writer opened in append mode. */
    method Write(line: string)
      modifies this
      ensures lines == old(lines) + [line]
    {
      lines := lines + [line];
    }
  }

  class LogStorageService {
    const file: LogFile
    /** The unbounded `LinkedBlockingQueue`, head first. */
    var queue: seq<LogEntry>
    /** Every entry the queue accepted, in order. */
    ghost var accepted: seq<LogEntry>
    /** Every entry ever drained, in order, whether or not its line was written. */
    ghost var drained: seq<LogEntry>

    /** The queue is what was accepted and not yet drained. */
    ghost predicate Valid()
      reads this
    {
      drained + queue == accepted
    }

    constructor(file: LogFile)
      requires file.path == LogFilePath
      ensures Valid() && this.file == file
      ensures queue == [] && accepted == [] && drained == []
    {
      this.file := file;
      queue := [];
      accepted := [];
      drained := [];
    }

    /**
     * `addLogToQueue`: the entry is appended at the tail; the queue has no
     * bound. A null entry makes `offer` throw `NullPointerException`, which
     * is reported as `rejected` and leaves the queue as it was.
     */
    method AddLogToQueue(entry: Option<LogEntry>) returns (rejected: bool)
      requires Valid()
      modifies this
      ensures Valid()
      ensures drained == old(drained)
      ensures rejected <==> entry.None?
      ensures entry.None? ==> queue == old(queue)
      ensures entry.Some? ==> queue == old(queue) + [entry.value]
    {
      if entry.None? {
        return true;
      }
      queue := queue + [entry.value];
      accepted := accepted + [entry.value];
      rejected := false;
    }

    /**
     * `storeLogsToFile`: drain the whole queue; when that took anything,
     * append one line per entry, in order, until an `IOException` (caught)
     * or an entry without a timestamp (not caught) stops the loop. Either
     * way the drained entries are not put back.
     */
    method StoreLogsToFile(format: LocalDateTime -> string, failure: IoFailure) returns (outcome: StoreOutcome)
      requires Valid()
      modifies this, file
      ensures Valid()
      ensures queue == [] && accepted == old(accepted) && drained == old(drained) + old(queue)
      ensures outcome == Outcome(old(queue), failure)
      ensures file.lines == old(file.lines) + LogLines(old(queue)[..LinesWritten(old(queue), failure)], format)
    {
      var batch := queue;
      drained := drained + queue;
      queue := [];
      if batch == [] {
        return Completed;
      }
      outcome := WriteLines(batch, format, failure);
    }

    /**
     * The `try` block of `storeLogsToFile` on a non-empty batch: open the
     * file for appending, then format and write each entry in turn.
     */
    method WriteLines(batch: seq<LogEntry>, format: LocalDateTime -> string, failure: IoFailure) returns (outcome: StoreOutcome)
      requires batch != []
      modifies file
      ensures outcome == Outcome(batch, failure)
      ensures file.lines == old(file.lines) + LogLines(batch[..LinesWritten(batch, failure)], format)
    {
      if failure == Some(0) {
        assert batch[..0] == [];
        return WriteFailed;
      }
      ghost var f := FirstNullTimestamp(batch);
      var i := 0;
      while i < |batch|
        invariant 0 <= i <= f
        invariant forall k :: 0 <= k < i ==> Printable(batch[k])
        invariant !FailsBefore(failure, i)
        invariant file.lines == old(file.lines) + LogLines(batch[..i], format)
      {
        if batch[i].timestamp.None? {
          assert f == i && !FailsBefore(failure, f);
          return NullTimestamp;
        }
        assert i < f;
        if failure == Some(i + 1) {
          assert FailsBefore(failure, f) && LinesWritten(batch, failure) == i;
          return WriteFailed;
        }
        assert batch[..i + 1][..i] == batch[..i];
        file.Write(LogLine(batch[i], format));
        i := i + 1;
      }
      assert batch[..i] == batch && f == |batch|;
      return Completed;
    }
  }
}
