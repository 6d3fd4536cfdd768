/** Shared vocabulary of the model: optional values, outcomes that may carry
    a raised exception, string prefixes, and the logging capability that the
    runtime writes its warnings, errors and debug lines to. */
module Common {

  datatype Option<+T> = None | Some(value: T)

  /** The kinds of exception the modelled code raises or lets through. */
  datatype ExceptionKind =
    | InvalidOperation
    | InvalidCast
    | KeyNotFound
    | NullReference
    | NotImplemented
    | ArgumentOutOfRange
    | ArgumentNull
    | General

  datatype Exception = Exception(kind: ExceptionKind, message: string)

  /** The result of an operation that either returns a value or raises. */
  datatype Outcome<+T> = Ok(value: T) | Raise(error: Exception)

  /** `s.StartsWith(prefix)` with ordinal comparison. */
  predicate StartsWith(s: string, prefix: string)
  {
    |prefix| <= |s| && s[..|prefix|] == prefix
  }

  /** Concatenation regrouped: the step that keeps an append-only log's
      invariant after one more append. */
  lemma AppendAssociates<T>(a: seq<T>, b: seq<T>, c: seq<T>)
    ensures a + b + c == a + (b + c)
  {
  }

  /** Severity levels of the logging capability. */
  datatype Severity = Debug | Warning | Error

  /** What the runtime reports; the text of each message is not modelled. */
  datatype LogEvent =
    | BacklogTooLong(count: int, limit: int)
    | SlowTask(durationMs: int, thresholdMs: int)
    | ExecNotSuccessful(task: nat)
    | DrainLoopFailed(task: nat)
    | UnknownRpcId(rpcId: nat)

  datatype LogEntry = LogEntry(severity: Severity, event: LogEvent)

  /** A logger seen only as "accepts a message at a severity": it keeps the
      entries in the order they were written. */
  class LogSink {
    var entries: seq<LogEntry>

    constructor ()
      ensures entries == []
    {
      entries := [];
    }

    method Write(severity: Severity, event: LogEvent)
      modifies this
      ensures entries == old(entries) + [LogEntry(severity, event)]
    {
      entries := entries + [LogEntry(severity, event)];
    }
  }
}
