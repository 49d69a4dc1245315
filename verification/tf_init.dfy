/** TensorFlow.js backend selection (src/lib/tfInit.ts): WebGL first, WASM
    as the fallback, one warm-up operation after a backend is selected, and
    the console filters installed while that happens. `tf.setBackend` +
    `tf.ready` for each backend, and the warm-up `tf.tidy`, are oracle
    outcomes. */
module TfInit {
  import opened Wrappers
  import Strings
  import Logger

  /** The spurious error some environments raise about the CPU backend. */
  const BenignBackendMessage: string := "Backend name 'cpu' not found"

  /** Marker of the model library's non-max-suppression warnings. */
  const NmsWarningMarker: string := "nonMaxSuppression"

  predicate IsBenignBackendError(message: string): (r: bool)
    ensures r <==> exists i :: Strings.OccursAt(message, BenignBackendMessage, i)
  {
    Strings.ContainsIffOccurs(message, BenignBackendMessage);
    Strings.Contains(message, BenignBackendMessage)
  }

  /** `args[0]?.toString() || ''`: the text a console filter inspects. */
  function ConsoleText(firstArg: Option<string>): string {
    firstArg.GetOr("")
  }

  /** The `console.error` filter passes a call on exactly when its text does
      not mention the benign backend error. */
  predicate ErrorForwarded(firstArg: Option<string>): (r: bool)
    ensures r <==> forall i :: !Strings.OccursAt(ConsoleText(firstArg), BenignBackendMessage, i)
    ensures firstArg.None? ==> r
  {
    assert !Strings.OccursAt("", BenignBackendMessage, 0);
    !IsBenignBackendError(ConsoleText(firstArg))
  }

  /** The `console.warn` filter passes a call on exactly when its text does
      not mention `nonMaxSuppression`. */
  predicate WarnForwarded(firstArg: Option<string>): (r: bool)
    ensures r <==> forall i :: !Strings.OccursAt(ConsoleText(firstArg), NmsWarningMarker, i)
    ensures firstArg.None? ==> r
  {
    Strings.ContainsIffOccurs(ConsoleText(firstArg), NmsWarningMarker);
    assert !Strings.OccursAt("", NmsWarningMarker, 0);
    !Strings.Contains(ConsoleText(firstArg), NmsWarningMarker)
  }

  datatype Backend = WebGL | Wasm

  function BackendName(b: Backend): string {
    match b
    case WebGL => "webgl"
    case Wasm => "wasm"
  }

  /** A failed backend attempt as it is logged. */
  datatype Failure = Failure(backend: Backend, message: string)

  /** What `initTf` did: the backends it tried in order, the one selected,
      the failures it logged, how many warm-ups ran, how it settled, and the
      log entries it made. */
  datatype InitReport = InitReport(
    attempts: seq<Backend>,
    selected: Option<Backend>,
    failures: seq<Failure>,
    warmups: nat,
    result: Outcome<string>,
    emitted: seq<Logger.LogEntry>)

  const InitFailureMessage: string := "Failed to initialize TensorFlow.js backend"

  const Category: string := "tf-init"
  const StartMessage: string := "Initializing TensorFlow.js"
  const FallbackMessage: string := "WebGL not available, falling back to WASM"
  const WarmupMessage: string := "TensorFlow.js warm-up complete"
  const AttemptMessage: string := "Attempting WebGL backend"

  function ReadyMessage(b: Backend): string {
    match b
    case WebGL => "WebGL backend initialized"
    case Wasm => "WASM backend initialized"
  }

  function Entry(now: string, level: Logger.Level, message: string, error: Option<Logger.ErrorInfo>): Logger.LogEntry {
    Logger.LogEntry(now, level, Category, message, None, error)
  }

  lemma MessagesDistinct()
    ensures ReadyMessage(WebGL) != ReadyMessage(Wasm)
    ensures WarmupMessage != AttemptMessage
  {
    assert ReadyMessage(WebGL)[1] != ReadyMessage(Wasm)[1];
    assert |WarmupMessage| != |AttemptMessage|;
  }

  /** The entries of the backend attempts, given how they turn out. */
  function AttemptEntries(webgl: Outcome<string>, wasm: Outcome<string>, now: string): (es: seq<Logger.LogEntry>)
    ensures forall i :: 0 <= i < |es| ==> es[i].category == Category
    ensures forall i :: 0 <= i < |es| && es[i].level == Logger.Error ==> es[i].message == InitFailureMessage
    ensures Logger.Logged(es, Logger.Warn, FallbackMessage) <==> webgl.Fail?
    ensures Logger.Logged(es, Logger.Error, InitFailureMessage) <==> webgl.Fail? && wasm.Fail?
    ensures Logger.Logged(es, Logger.Info, ReadyMessage(WebGL)) <==> webgl.Pass?
    ensures Logger.Logged(es, Logger.Info, ReadyMessage(Wasm)) <==> webgl.Fail? && wasm.Pass?
    ensures !Logger.Logged(es, Logger.Debug, WarmupMessage)
    ensures !Logger.Logged(es, Logger.Info, StartMessage)
  {
    var attempt := Entry(now, Logger.Debug, AttemptMessage, None);
    MessagesDistinct();
    Logger.LoggedSingle(attempt, Logger.Debug, WarmupMessage);
    Logger.LoggedSingle(attempt, Logger.Warn, FallbackMessage);
    Logger.LoggedSingle(attempt, Logger.Error, InitFailureMessage);
    Logger.LoggedSingle(attempt, Logger.Info, ReadyMessage(WebGL));
    Logger.LoggedSingle(attempt, Logger.Info, ReadyMessage(Wasm));
    Logger.LoggedSingle(attempt, Logger.Info, StartMessage);
    match webgl
    case Pass =>
      var ready := Entry(now, Logger.Info, ReadyMessage(WebGL), None);
      Logger.LoggedThen([attempt], ready, Logger.Debug, WarmupMessage);
      Logger.LoggedThen([attempt], ready, Logger.Warn, FallbackMessage);
      Logger.LoggedThen([attempt], ready, Logger.Error, InitFailureMessage);
      Logger.LoggedThen([attempt], ready, Logger.Info, ReadyMessage(WebGL));
      Logger.LoggedThen([attempt], ready, Logger.Info, ReadyMessage(Wasm));
      Logger.LoggedThen([attempt], ready, Logger.Info, StartMessage);
      [attempt] + [ready]
    case Fail(e) =>
      var warned := Entry(now, Logger.Warn, FallbackMessage, None);
      var fellBack := [attempt] + [warned];
      Logger.LoggedThen([attempt], warned, Logger.Debug, WarmupMessage);
      Logger.LoggedThen([attempt], warned, Logger.Warn, FallbackMessage);
      Logger.LoggedThen([attempt], warned, Logger.Error, InitFailureMessage);
      Logger.LoggedThen([attempt], warned, Logger.Info, ReadyMessage(WebGL));
      Logger.LoggedThen([attempt], warned, Logger.Info, ReadyMessage(Wasm));
      Logger.LoggedThen([attempt], warned, Logger.Info, StartMessage);
      var last := match wasm
        case Pass => Entry(now, Logger.Info, ReadyMessage(Wasm), None)
        case Fail(e2) => Entry(now, Logger.Error, InitFailureMessage, Some(Logger.ErrorInfo("Error", e2, None)));
      Logger.LoggedThen(fellBack, last, Logger.Debug, WarmupMessage);
      Logger.LoggedThen(fellBack, last, Logger.Warn, FallbackMessage);
      Logger.LoggedThen(fellBack, last, Logger.Error, InitFailureMessage);
      Logger.LoggedThen(fellBack, last, Logger.Info, ReadyMessage(WebGL));
      Logger.LoggedThen(fellBack, last, Logger.Info, ReadyMessage(Wasm));
      Logger.LoggedThen(fellBack, last, Logger.Info, StartMessage);
      fellBack + [last]
  }

  /** The start entry followed by the entries of the backend attempts. */
  function StartedEntries(webgl: Outcome<string>, wasm: Outcome<string>, now: string): (es: seq<Logger.LogEntry>)
    ensures |es| > 0 && es[0] == Entry(now, Logger.Info, StartMessage, None)
    ensures forall i :: 0 <= i < |es| ==> es[i].category == Category
    ensures forall i :: 0 <= i < |es| && es[i].level == Logger.Error ==> es[i].message == InitFailureMessage
    ensures Logger.Logged(es, Logger.Warn, FallbackMessage) <==> webgl.Fail?
    ensures Logger.Logged(es, Logger.Error, InitFailureMessage) <==> webgl.Fail? && wasm.Fail?
    ensures Logger.Logged(es, Logger.Info, ReadyMessage(WebGL)) <==> webgl.Pass?
    ensures Logger.Logged(es, Logger.Info, ReadyMessage(Wasm)) <==> webgl.Fail? && wasm.Pass?
    ensures !Logger.Logged(es, Logger.Debug, WarmupMessage)
  {
    var start := Entry(now, Logger.Info, StartMessage, None);
    var attempts := AttemptEntries(webgl, wasm, now);
    Logger.LoggedSingle(start, Logger.Warn, FallbackMessage);
    Logger.LoggedSingle(start, Logger.Error, InitFailureMessage);
    Logger.LoggedSingle(start, Logger.Debug, WarmupMessage);
    Logger.LoggedSingle(start, Logger.Info, ReadyMessage(WebGL));
    Logger.LoggedSingle(start, Logger.Info, ReadyMessage(Wasm));
    MessagesDistinct();
    Logger.LoggedAppend([start], attempts, Logger.Warn, FallbackMessage);
    Logger.LoggedAppend([start], attempts, Logger.Error, InitFailureMessage);
    Logger.LoggedAppend([start], attempts, Logger.Debug, WarmupMessage);
    Logger.LoggedAppend([start], attempts, Logger.Info, ReadyMessage(WebGL));
    Logger.LoggedAppend([start], attempts, Logger.Info, ReadyMessage(Wasm));
    [start] + attempts
  }

  /** Every entry `initTf` makes: the start, the attempts, and the warm-up
      entry once a backend is selected and the warm-up passed. */
  function InitEntries(webgl: Outcome<string>, wasm: Outcome<string>, warmup: Outcome<string>, now: string): (es: seq<Logger.LogEntry>)
    ensures |es| > 0 && es[0] == Entry(now, Logger.Info, StartMessage, None)
    ensures forall i :: 0 <= i < |es| ==> es[i].category == Category
    ensures forall i :: 0 <= i < |es| && es[i].level == Logger.Error ==> es[i].message == InitFailureMessage
    ensures Logger.Logged(es, Logger.Warn, FallbackMessage) <==> webgl.Fail?
    ensures Logger.Logged(es, Logger.Error, InitFailureMessage) <==> webgl.Fail? && wasm.Fail?
    ensures Logger.Logged(es, Logger.Info, ReadyMessage(WebGL)) <==> webgl.Pass?
    ensures Logger.Logged(es, Logger.Info, ReadyMessage(Wasm)) <==> webgl.Fail? && wasm.Pass?
    ensures Logger.Logged(es, Logger.Debug, WarmupMessage) <==> (webgl.Pass? || wasm.Pass?) && warmup.Pass?
  {
    var started := StartedEntries(webgl, wasm, now);
    if (webgl.Pass? || wasm.Pass?) && warmup.Pass? then
      var warmed := Entry(now, Logger.Debug, WarmupMessage, None);
      Logger.LoggedThen(started, warmed, Logger.Warn, FallbackMessage);
      Logger.LoggedThen(started, warmed, Logger.Error, InitFailureMessage);
      Logger.LoggedThen(started, warmed, Logger.Debug, WarmupMessage);
      Logger.LoggedThen(started, warmed, Logger.Info, ReadyMessage(WebGL));
      Logger.LoggedThen(started, warmed, Logger.Info, ReadyMessage(Wasm));
      started + [warmed]
    else
      started
  }

  /** `initTf()`, given how each backend attempt and the warm-up turn out. */
  function InitTf(webgl: Outcome<string>, wasm: Outcome<string>, warmup: Outcome<string>, now: string): (r: InitReport)
    ensures |r.attempts| > 0 && r.attempts[0] == WebGL
    ensures webgl.Pass? ==> r.attempts == [WebGL] && r.selected == Some(WebGL) && r.failures == []
    ensures webgl.Fail? ==> r.attempts == [WebGL, Wasm] && |r.failures| > 0 && r.failures[0] == Failure(WebGL, webgl.error)
    ensures webgl.Fail? && wasm.Pass? ==> r.selected == Some(Wasm) && |r.failures| == 1
    ensures webgl.Fail? && wasm.Fail? ==> && r.selected.None? && r.result == Fail(InitFailureMessage)
                                          && r.failures == [Failure(WebGL, webgl.error), Failure(Wasm, wasm.error)]
    ensures r.warmups == (if r.selected.Some? then 1 else 0)
    ensures r.result.Pass? <==> r.selected.Some? && warmup.Pass?
    ensures |r.emitted| > 0 && r.emitted[0] == Entry(now, Logger.Info, StartMessage, None)
    ensures forall i :: 0 <= i < |r.emitted| ==> r.emitted[i].category == Category
    ensures forall i :: 0 <= i < |r.emitted| && r.emitted[i].level == Logger.Error ==> r.emitted[i].message == InitFailureMessage
    ensures Logger.Logged(r.emitted, Logger.Warn, FallbackMessage) <==> webgl.Fail?
    ensures Logger.Logged(r.emitted, Logger.Error, InitFailureMessage) <==> r.selected.None?
    ensures r.selected.Some? ==> Logger.Logged(r.emitted, Logger.Info, ReadyMessage(r.selected.value))
    ensures Logger.Logged(r.emitted, Logger.Debug, WarmupMessage) <==> r.result.Pass?
  {
    var emitted := InitEntries(webgl, wasm, warmup, now);
    match webgl
    case Pass => InitReport([WebGL], Some(WebGL), [], 1, warmup, emitted)
    case Fail(e) =>
      match wasm
      case Pass => InitReport([WebGL, Wasm], Some(Wasm), [Failure(WebGL, e)], 1, warmup, emitted)
      case Fail(e2) =>
        InitReport([WebGL, Wasm], None, [Failure(WebGL, e), Failure(Wasm, e2)], 0, Fail(InitFailureMessage), emitted)
  }

  /** `getBackend()`: `tf.getBackend() || 'unknown'`, so an absent or empty
      name reads as `unknown`. */
  function GetBackend(reported: Option<string>): (r: string)
    ensures reported.Some? && reported.value != "" ==> r == reported.value
    ensures reported.None? || reported.value == "" ==> r == "unknown"
    ensures r != ""
  {
    match reported
    case Some(name) => if name != "" then name else "unknown"
    case None => "unknown"
  }
}
