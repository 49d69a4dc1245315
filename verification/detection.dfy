/** Object detection on a video frame (src/lib/detection.ts): the cached
    COCO-SSD handle, the confidence/class filter, and the error handling
    that turns every failure after the model is loaded into an empty batch.
    `model.detect` is an oracle `Inference`; log calls are returned as the
    entries they append, for `Logger.AppendAll`. */
module Detection {
  import opened Wrappers
  import Strings
  import Constants
  import Loaders
  import Logger
  import TfInit

  /** `[x, y, width, height]` in video pixels. */
  datatype BBox = BBox(x: real, y: real, w: real, h: real)

  datatype Det = Det(bbox: BBox, cls: string, score: real)

  const MinScore: real := 0.5

  /** A detection the filter lets through. */
  predicate Published(d: Det) {
    d.score >= MinScore && Constants.IsDetectClass(d.cls)
  }

  /** The filter of `detectFrame`, keeping survivors in order. */
  function FilterDetections(ds: seq<Det>): (r: seq<Det>)
    ensures |r| <= |ds|
    ensures forall i :: 0 <= i < |r| ==> Published(r[i])
    ensures forall d :: d in r <==> d in ds && Published(d)
  {
    if |ds| == 0 then []
    else (if Published(ds[0]) then [ds[0]] else []) + FilterDetections(ds[1..])
  }

  /** The filter distributes over concatenation; with the one-element case
      this pins the order of the survivors. */
  lemma {:induction false} FilterAppend(a: seq<Det>, b: seq<Det>)
    ensures FilterDetections(a + b) == FilterDetections(a) + FilterDetections(b)
    decreases |a|
  {
    if |a| == 0 {
      assert a + b == b;
    } else {
      assert (a + b)[0] == a[0];
      assert (a + b)[1..] == a[1..] + b;
      FilterAppend(a[1..], b);
    }
  }

  lemma FilterSingleton(d: Det)
    ensures FilterDetections([d]) == if Published(d) then [d] else []
  {
    assert [d][1..] == [];
  }

  /** Filtering a filtered batch changes nothing. */
  lemma {:induction false} FilterIdempotent(ds: seq<Det>)
    ensures FilterDetections(FilterDetections(ds)) == FilterDetections(ds)
    decreases |ds|
  {
    if |ds| > 0 {
      var head := if Published(ds[0]) then [ds[0]] else [];
      FilterIdempotent(ds[1..]);
      FilterAppend(head, FilterDetections(ds[1..]));
      if Published(ds[0]) {
        FilterSingleton(ds[0]);
      } else {
        assert head + FilterDetections(ds[1..]) == FilterDetections(ds[1..]);
      }
    }
  }

  /** The labels of a batch, as `tallyByClass` reads them. */
  function Labels(ds: seq<Det>): (r: seq<string>)
    ensures |r| == |ds| && forall i :: 0 <= i < |ds| ==> r[i] == ds[i].cls
  {
    seq(|ds|, i requires 0 <= i < |ds| => ds[i].cls)
  }

  /** The two caches behind `loadCoco`: this module's handle and the
      loader's. */
  datatype CocoState = CocoState(model: Option<Loaders.Handle>, loaderCache: Option<Loaders.Handle>)

  datatype CocoLoad = CocoLoad(state: CocoState, result: Result<Loaders.Handle, Loaders.InitError>,
                               emitted: seq<Logger.LogEntry>)

  const Category: string := "detection"

  function Entry(now: string, level: Logger.Level, message: string, data: Option<map<string, string>>): Logger.LogEntry {
    Logger.LogEntry(now, level, Category, message, data, None)
  }

  /** `loadCoco()`. */
  function LoadCoco(st: CocoState, remote: Result<Loaders.Handle, string>, local: Result<Loaders.Handle, string>,
                    now: string): (r: CocoLoad)
    ensures st.model.Some? ==> r.state == st && r.result == Ok(st.model.value)
    ensures st.model.Some? ==> r.emitted == [Entry(now, Logger.Debug, "COCO-SSD model already loaded", None)]
    ensures st.model.None? ==> r.result == Loaders.LoadCocoSsd(st.loaderCache, remote, local).result
    ensures r.result.Ok? <==> r.state.model.Some?
    ensures r.result.Ok? ==> r.state.model == Some(r.result.value)
    ensures forall i :: 0 <= i < |r.emitted| ==> r.emitted[i].level in {Logger.Debug, Logger.Info}
  {
    match st.model
    case Some(h) =>
      CocoLoad(st, Ok(h), [Entry(now, Logger.Debug, "COCO-SSD model already loaded", None)])
    case None =>
      var step := Loaders.LoadCocoSsd(st.loaderCache, remote, local);
      var started := [Entry(now, Logger.Info, "Loading COCO-SSD model", None)];
      match step.result
      case Ok(h) =>
        CocoLoad(CocoState(Some(h), step.cache), Ok(h),
                 started + [Entry(now, Logger.Info, "COCO-SSD model loaded", None)])
      case Err(e) =>
        CocoLoad(CocoState(None, step.cache), Err(e), started)
  }

  /** A second `loadCoco` after a successful one loads nothing. */
  lemma LoadCocoCached(st: CocoState, r1: Result<Loaders.Handle, string>, l1: Result<Loaders.Handle, string>,
                       r2: Result<Loaders.Handle, string>, l2: Result<Loaders.Handle, string>, now1: string, now2: string)
    requires LoadCoco(st, r1, l1, now1).result.Ok?
    ensures var first := LoadCoco(st, r1, l1, now1);
            var second := LoadCoco(first.state, r2, l2, now2);
            second.state == first.state && second.result == first.result
  {
  }

  /** How `model.detect(video)` turns out: resolved with a (possibly
      absent) raw batch, or rejected with the message `detectFrame`
      computes from the error. */
  datatype Inference = Resolved(raw: Option<seq<Det>>) | Rejected(message: string)

  datatype DetectStep = DetectStep(state: CocoState, result: Result<seq<Det>, Loaders.InitError>,
                                   emitted: seq<Logger.LogEntry>)

  const SuppressedMessage: string := "Backend warning suppressed (using WebGL/WASM)"

  function ErrorData(message: string): Option<map<string, string>> {
    Some(map["error" := message])
  }

  /** The part of `detectFrame` after the model is available. */
  function Infer(inference: Inference, now: string): (r: (seq<Det>, seq<Logger.LogEntry>))
    ensures forall i :: 0 <= i < |r.0| ==> Published(r.0[i])
    ensures inference.Rejected? ==> r.0 == []
    ensures inference.Resolved? && inference.raw.Some? ==> r.0 == FilterDetections(inference.raw.value)
    ensures inference == Resolved(None) ==> r.0 == [] && r.1 == []
    ensures HasWarning(r.1) <==> inference.Rejected? && !IsBenignRejection(inference)
  {
    match inference
    case Rejected(message) =>
      if TfInit.IsBenignBackendError(message) then
        ([], [Entry(now, Logger.Debug, SuppressedMessage, ErrorData(message))])
      else
        var es := [Entry(now, Logger.Warn, "Detection failed", ErrorData(message))];
        assert es[0].level == Logger.Warn;
        ([], es)
    case Resolved(None) => ([], [])
    case Resolved(Some(raw)) =>
      if |raw| == 0 then ([], [])
      else
        var filtered := FilterDetections(raw);
        var data := map["totalDetections" := Strings.DecimalString(|raw|),
                        "filteredDetections" := Strings.DecimalString(|filtered|)];
        (filtered, [Entry(now, Logger.Debug, "Frame detection complete", Some(data))])
  }

  predicate HasWarning(es: seq<Logger.LogEntry>) {
    exists i :: 0 <= i < |es| && es[i].level == Logger.Warn
  }

  predicate IsBenignRejection(inference: Inference) {
    inference.Rejected? && TfInit.IsBenignBackendError(inference.message)
  }

  /** `detectFrame(video)`. */
  function DetectFrame(st: CocoState, remote: Result<Loaders.Handle, string>, local: Result<Loaders.Handle, string>,
                       inference: Inference, now: string): (r: DetectStep)
    ensures st.model.Some? ==> r.result.Ok? && r.state == st
    ensures r.result.Err? <==> LoadCoco(st, remote, local, now).result.Err?
    ensures r.result.Ok? ==> r.state.model.Some? && forall i :: 0 <= i < |r.result.value| ==> Published(r.result.value[i])
    ensures r.result.Ok? && inference.Rejected? ==> r.result.value == []
    ensures r.result.Ok? && inference == Resolved(None) ==> r.result.value == []
    ensures r.result.Ok? && inference.Resolved? && inference.raw.Some?
            ==> r.result.value == FilterDetections(inference.raw.value)
    ensures HasWarning(r.emitted) <==> r.result.Ok? && inference.Rejected? && !IsBenignRejection(inference)
    ensures r.result.Ok? && IsBenignRejection(inference)
            ==> |r.emitted| > 0
                && r.emitted[|r.emitted| - 1] == Entry(now, Logger.Debug, SuppressedMessage, ErrorData(inference.message))
  {
    if st.model.Some? then
      var (dets, inferLog) := Infer(inference, now);
      DetectStep(st, Ok(dets), inferLog)
    else
      var ld := LoadCoco(st, remote, local, now);
      match ld.result
      case Err(e) => DetectStep(ld.state, Err(e), ld.emitted)
      case Ok(_) =>
        var (dets, inferLog) := Infer(inference, now);
        HasWarningAppend(ld.emitted, inferLog);
        DetectStep(ld.state, Ok(dets), ld.emitted + inferLog)
  }

  lemma HasWarningAppend(a: seq<Logger.LogEntry>, b: seq<Logger.LogEntry>)
    ensures HasWarning(a + b) <==> HasWarning(a) || HasWarning(b)
  {
    if HasWarning(a + b) {
      var i :| 0 <= i < |a + b| && (a + b)[i].level == Logger.Warn;
      if i >= |a| {
        assert b[i - |a|].level == Logger.Warn;
      }
    }
    if HasWarning(a) {
      var j :| 0 <= j < |a| && a[j].level == Logger.Warn;
      assert (a + b)[j] == a[j];
    }
    if HasWarning(b) {
      var j :| 0 <= j < |b| && b[j].level == Logger.Warn;
      assert (a + b)[|a| + j] == b[j];
    }
  }

  /** An empty or absent raw batch publishes nothing and logs nothing. */
  lemma EmptyInferenceYieldsNothing(st: CocoState, remote: Result<Loaders.Handle, string>,
                                    local: Result<Loaders.Handle, string>, now: string)
    requires st.model.Some?
    ensures DetectFrame(st, remote, local, Resolved(Some([])), now) == DetectStep(st, Ok([]), [])
    ensures DetectFrame(st, remote, local, Resolved(None), now) == DetectStep(st, Ok([]), [])
  {
  }
}
