/** The in-memory structured logger (src/lib/utils/logger.ts): a buffer of
    the most recent 1000 entries, level wrappers, and switches to read, clear
    or disable it. The clock reading `new Date().toISOString()` is a
    parameter; console output is not modelled. */
module Logger {
  import opened Wrappers

  datatype Level = Debug | Info | Warn | Error

  /** The name, message and stack of a JavaScript `Error`. */
  datatype ErrorInfo = ErrorInfo(name: string, message: string, stack: Option<string>)

  datatype LogEntry = LogEntry(
    timestamp: string,
    level: Level,
    category: string,
    message: string,
    data: Option<map<string, string>>,
    error: Option<ErrorInfo>)

  datatype Logger = Logger(logs: seq<LogEntry>, enabled: bool)

  const MaxLogs: nat := 1000

  /** The logger as the module creates it. */
  const Initial := Logger([], true)

  predicate Bounded(lg: Logger) {
    |lg.logs| <= MaxLogs
  }

  /** The buffer part of `log`: push, then shift once if over the limit. */
  function Append(lg: Logger, e: LogEntry): (r: Logger)
    ensures !lg.enabled ==> r == lg
    ensures lg.enabled ==> r.enabled && |r.logs| > 0 && r.logs[|r.logs| - 1] == e
    ensures lg.enabled && |lg.logs| < MaxLogs ==> r.logs == lg.logs + [e]
    ensures lg.enabled && |lg.logs| == MaxLogs ==> r.logs == lg.logs[1..] + [e]
    ensures Bounded(lg) ==> Bounded(r)
  {
    if !lg.enabled then lg
    else
      var logs := lg.logs + [e];
      if |logs| > MaxLogs then lg.(logs := logs[1..]) else lg.(logs := logs)
  }

  /** `log(entry)`, stamped with the clock reading `now`. While enabled,
      the buffer becomes the last 1000 entries of the old buffer followed by
      the new entry. */
  function Log(lg: Logger, level: Level, category: string, message: string,
               data: Option<map<string, string>>, error: Option<ErrorInfo>, now: string): (r: Logger)
    ensures !lg.enabled ==> r == lg
    ensures lg.enabled ==> r.enabled && |r.logs| > 0 && r.logs[|r.logs| - 1] == LogEntry(now, level, category, message, data, error)
    ensures lg.enabled && |lg.logs| < MaxLogs ==> r.logs == lg.logs + [LogEntry(now, level, category, message, data, error)]
    ensures lg.enabled && Bounded(lg) ==> r.logs == LastN(lg.logs + [LogEntry(now, level, category, message, data, error)], MaxLogs)
    ensures Bounded(lg) ==> Bounded(r)
  {
    var e := LogEntry(now, level, category, message, data, error);
    AppendToLastN(lg.logs, e);
    Append(lg, e)
  }

  function LogDebug(lg: Logger, category: string, message: string,
                    data: Option<map<string, string>>, now: string): (r: Logger)
    ensures lg.enabled && Bounded(lg) ==> r == Logger(LastN(lg.logs + [LogEntry(now, Debug, category, message, data, None)], MaxLogs), true)
    ensures !lg.enabled ==> r == lg
  {
    Log(lg, Debug, category, message, data, None, now)
  }

  function LogInfo(lg: Logger, category: string, message: string,
                   data: Option<map<string, string>>, now: string): (r: Logger)
    ensures lg.enabled && Bounded(lg) ==> r == Logger(LastN(lg.logs + [LogEntry(now, Info, category, message, data, None)], MaxLogs), true)
    ensures !lg.enabled ==> r == lg
  {
    Log(lg, Info, category, message, data, None, now)
  }

  function LogWarn(lg: Logger, category: string, message: string,
                   data: Option<map<string, string>>, now: string): (r: Logger)
    ensures lg.enabled && Bounded(lg) ==> r == Logger(LastN(lg.logs + [LogEntry(now, Warn, category, message, data, None)], MaxLogs), true)
    ensures !lg.enabled ==> r == lg
  {
    Log(lg, Warn, category, message, data, None, now)
  }

  /** `error(category, message, error?, data?)`: records the error's name,
      message and stack, or no error when none is given. */
  function LogError(lg: Logger, category: string, message: string, error: Option<ErrorInfo>,
                    data: Option<map<string, string>>, now: string): (r: Logger)
    ensures lg.enabled && Bounded(lg) ==> r == Logger(LastN(lg.logs + [LogEntry(now, Error, category, message, data, error)], MaxLogs), true)
    ensures !lg.enabled ==> r == lg
  {
    var recorded := match error
      case None => None
      case Some(e) => Some(ErrorInfo(e.name, e.message, e.stack));
    Log(lg, Error, category, message, data, recorded, now)
  }

  /** `getLogs()`: a copy of the buffer, which in a value model is the
      buffer itself. */
  function GetLogs(lg: Logger): seq<LogEntry> {
    lg.logs
  }

  function ClearLogs(lg: Logger): (r: Logger)
    ensures r.logs == [] && r.enabled == lg.enabled
  {
    lg.(logs := [])
  }

  function SetEnabled(lg: Logger, enabled: bool): (r: Logger)
    ensures r.enabled == enabled && r.logs == lg.logs
  {
    lg.(enabled := enabled)
  }

  /** Appending a sequence of entries, one `log` call after another. */
  function AppendAll(lg: Logger, es: seq<LogEntry>): Logger
    decreases |es|
  {
    if |es| == 0 then lg else Append(AppendAll(lg, es[..|es| - 1]), es[|es| - 1])
  }

  /** Some entry of `es` has this level and message. */
  predicate Logged(es: seq<LogEntry>, level: Level, message: string) {
    exists i :: 0 <= i < |es| && es[i].level == level && es[i].message == message
  }

  lemma LoggedAppend(a: seq<LogEntry>, b: seq<LogEntry>, level: Level, message: string)
    ensures Logged(a + b, level, message) <==> Logged(a, level, message) || Logged(b, level, message)
  {
    if Logged(a + b, level, message) {
      var i :| 0 <= i < |a + b| && (a + b)[i].level == level && (a + b)[i].message == message;
      if i >= |a| {
        assert b[i - |a|] == (a + b)[i];
      } else {
        assert a[i] == (a + b)[i];
      }
    }
    if Logged(a, level, message) {
      var j :| 0 <= j < |a| && a[j].level == level && a[j].message == message;
      assert (a + b)[j] == a[j];
    }
    if Logged(b, level, message) {
      var j :| 0 <= j < |b| && b[j].level == level && b[j].message == message;
      assert (a + b)[|a| + j] == b[j];
    }
  }

  lemma LoggedSingle(e: LogEntry, level: Level, message: string)
    ensures Logged([e], level, message) <==> e.level == level && e.message == message
  {
    if e.level == level && e.message == message {
      assert [e][0] == e;
    }
  }

  /** `Logged` of a one-entry log line appended to `es`. */
  lemma LoggedThen(es: seq<LogEntry>, e: LogEntry, level: Level, message: string)
    ensures Logged(es + [e], level, message)
            <==> Logged(es, level, message) || (e.level == level && e.message == message)
  {
    LoggedAppend(es, [e], level, message);
    LoggedSingle(e, level, message);
  }

  /** The last `n` elements of `s`, or all of them if there are fewer. */
  function LastN<T>(s: seq<T>, n: nat): (r: seq<T>)
    ensures |r| == if |s| <= n then |s| else n
  {
    if |s| <= n then s else s[|s| - n..]
  }

  /** One `log` call on a buffer of the last entries of `all`. */
  lemma AppendToLastN(all: seq<LogEntry>, e: LogEntry)
    ensures Append(Logger(LastN(all, MaxLogs), true), e).logs == LastN(all + [e], MaxLogs)
  {
    var buf := LastN(all, MaxLogs);
    if |all| >= MaxLogs {
      assert buf == all[|all| - MaxLogs..];
      assert buf[1..] + [e] == (all + [e])[|all + [e]| - MaxLogs..];
    }
  }

  /** While enabled, the buffer holds exactly the most recent `MaxLogs`
      entries, oldest first. */
  lemma {:induction false} BufferIsMostRecentEntries(lg: Logger, es: seq<LogEntry>)
    requires lg.enabled && Bounded(lg)
    ensures AppendAll(lg, es) == Logger(LastN(lg.logs + es, MaxLogs), true)
    decreases |es|
  {
    if |es| == 0 {
      assert lg.logs + es == lg.logs;
    } else {
      var init := es[..|es| - 1];
      var e := es[|es| - 1];
      BufferIsMostRecentEntries(lg, init);
      assert lg.logs + es == (lg.logs + init) + [e];
      AppendToLastN(lg.logs + init, e);
    }
  }

  /** After a clear, the buffer is the last (at most 1000) entries logged
      since, in order. */
  lemma BufferAfterClear(lg: Logger, es: seq<LogEntry>)
    requires lg.enabled
    ensures AppendAll(ClearLogs(lg), es).logs == LastN(es, MaxLogs)
  {
    BufferIsMostRecentEntries(ClearLogs(lg), es);
    assert [] + es == es;
  }
}
