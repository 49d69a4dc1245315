/** The scan screen (src/components/CameraSurface.tsx): which municipality
    a capture is filed under, the start-up sequence, the throttled detection
    loop, and the capture pipeline snapshot -> face blur -> compress ->
    tally -> draft. Each `requestAnimationFrame` callback is one `Tick`, the
    settling of a `detectFrame` promise is one `Settle`, and the camera,
    the video frame and the encoder are oracle parameters. */
module CameraSurface {
  import opened Wrappers
  import Constants
  import Math
  import Store
  import Logger
  import TfInit
  import Loaders
  import Detection
  import ImageOps
  import Faces

  const Category: string := "camera"

  function Entry(now: string, level: Logger.Level, message: string, error: Option<Logger.ErrorInfo>): Logger.LogEntry {
    Logger.LogEntry(now, level, Category, message, None, error)
  }

  /** The `m` query parameter, or the default municipality's id when it is
      absent or empty (`params.get('m') || ...`). The id is not checked
      against the list. */
  function ResolveMunicipalityId(m: Option<string>): (r: string)
    ensures m.Some? && m.value != "" ==> r == m.value
    ensures m.None? || m.value == "" ==> r == Constants.GetDefaultMunicipality().id
    ensures r != ""
  {
    match m
    case Some(id) => if id != "" then id else Constants.GetDefaultMunicipality().id
    case None => Constants.GetDefaultMunicipality().id
  }

  /** The municipality whose description is shown: the one with the id, or
      the default one for an unknown id. */
  function DisplayedMunicipality(id: string): (r: Constants.Municipality)
    ensures r in Constants.Municipalities
    ensures Constants.GetMunicipality(id).Some? ==> r.id == id
    ensures Constants.GetMunicipality(id).None? ==> r == Constants.GetDefaultMunicipality()
  {
    var found := Constants.GetMunicipality(id);
    if found.Some? then found.value
    else Constants.GetDefaultMunicipality()
  }

  /** The screen state the start-up effect settles, whether it called
      `getUserMedia`, and the log entries it made. */
  datatype Surface = Surface(loading: bool, modelsLoaded: bool, error: Option<string>, coco: Detection.CocoState,
                             cameraRequested: bool, emitted: seq<Logger.LogEntry>)

  const InitStartMessage: string := "Initializing camera surface"
  const InitFailedMessage: string := "Failed to initialize camera"
  const ModelsLoadedMessage: string := "Models loaded successfully"
  const RequestCameraMessage: string := "Requesting camera access"

  lemma InitMessagesDistinct()
    ensures InitFailedMessage != TfInit.InitFailureMessage
  {
    assert |InitFailedMessage| != |TfInit.InitFailureMessage|;
  }

  /** The entries after the models loaded: the demo video when `demoVideo`
      (demo mode with the video element mounted), otherwise the camera
      request and how it turned out. */
  function CameraEntries(demoVideo: bool, camera: Outcome<string>, now: string): (es: seq<Logger.LogEntry>)
    ensures Logger.Logged(es, Logger.Error, InitFailedMessage) <==> !demoVideo && camera.Fail?
    ensures Logger.Logged(es, Logger.Info, RequestCameraMessage) <==> !demoVideo
  {
    if demoVideo then
      var e := Entry(now, Logger.Info, "Starting demo mode with sample video", None);
      Logger.LoggedSingle(e, Logger.Error, InitFailedMessage);
      Logger.LoggedSingle(e, Logger.Info, RequestCameraMessage);
      [e]
    else
      var requested := Entry(now, Logger.Info, RequestCameraMessage, None);
      var last := match camera
        case Pass => Entry(now, Logger.Info, "Camera stream started", None)
        case Fail(e) => Entry(now, Logger.Error, InitFailedMessage, Some(Logger.ErrorInfo("Error", e, None)));
      Logger.LoggedSingle(requested, Logger.Error, InitFailedMessage);
      Logger.LoggedThen([requested], last, Logger.Error, InitFailedMessage);
      Logger.LoggedSingle(requested, Logger.Info, RequestCameraMessage);
      Logger.LoggedThen([requested], last, Logger.Info, RequestCameraMessage);
      [requested] + [last]
  }

  /** The entries from `loadCoco` on, once the backend is up. */
  function LoadEntries(coco: Detection.CocoState, remote: Result<Loaders.Handle, string>,
                       local: Result<Loaders.Handle, string>, demoVideo: bool, camera: Outcome<string>,
                       now: string): (es: seq<Logger.LogEntry>)
    ensures var loaded := Detection.LoadCoco(coco, remote, local, now).result.Ok?;
            Logger.Logged(es, Logger.Error, InitFailedMessage) <==> !loaded || (!demoVideo && camera.Fail?)
    ensures Detection.LoadCoco(coco, remote, local, now).result.Ok? ==> Logger.Logged(es, Logger.Info, ModelsLoadedMessage)
  {
    var ld := Detection.LoadCoco(coco, remote, local, now);
    match ld.result
    case Err(e) =>
      var failed := Entry(now, Logger.Error, InitFailedMessage, Some(Logger.ErrorInfo("ModelInitError", e.message, None)));
      Logger.LoggedThen(ld.emitted, failed, Logger.Error, InitFailedMessage);
      ld.emitted + [failed]
    case Ok(_) =>
      var loaded := Entry(now, Logger.Info, ModelsLoadedMessage, None);
      var cam := CameraEntries(demoVideo, camera, now);
      Logger.LoggedThen(ld.emitted, loaded, Logger.Error, InitFailedMessage);
      Logger.LoggedThen(ld.emitted, loaded, Logger.Info, ModelsLoadedMessage);
      Logger.LoggedAppend(ld.emitted + [loaded], cam, Logger.Error, InitFailedMessage);
      Logger.LoggedAppend(ld.emitted + [loaded], cam, Logger.Info, ModelsLoadedMessage);
      ld.emitted + [loaded] + cam
  }

  /** The entries after `initTf` settled: its failure, or those from
      `loadCoco` on. */
  function AfterBackend(tf: Outcome<string>, coco: Detection.CocoState, remote: Result<Loaders.Handle, string>,
                        local: Result<Loaders.Handle, string>, demoVideo: bool, camera: Outcome<string>,
                        now: string): (es: seq<Logger.LogEntry>)
    ensures var loaded := Detection.LoadCoco(coco, remote, local, now).result.Ok?;
            Logger.Logged(es, Logger.Error, InitFailedMessage) <==> tf.Fail? || !loaded || (!demoVideo && camera.Fail?)
    ensures tf.Pass? && Detection.LoadCoco(coco, remote, local, now).result.Ok?
            ==> Logger.Logged(es, Logger.Info, ModelsLoadedMessage)
  {
    match tf
    case Fail(e) =>
      var failed := Entry(now, Logger.Error, InitFailedMessage, Some(Logger.ErrorInfo("Error", e, None)));
      Logger.LoggedSingle(failed, Logger.Error, InitFailedMessage);
      [failed]
    case Pass => LoadEntries(coco, remote, local, demoVideo, camera, now)
  }

  /** Every entry the start-up effect makes. The demo branch is taken only
      when the video element is mounted (`demo && videoRef.current`). */
  function StartupEntries(webgl: Outcome<string>, wasm: Outcome<string>, warmup: Outcome<string>,
                          coco: Detection.CocoState, remote: Result<Loaders.Handle, string>,
                          local: Result<Loaders.Handle, string>, demo: bool, videoMounted: bool,
                          camera: Outcome<string>,
                          now: string): (es: seq<Logger.LogEntry>)
    ensures var tf := TfInit.InitTf(webgl, wasm, warmup, now);
            && |es| > |tf.emitted|
            && es[0] == Entry(now, Logger.Info, InitStartMessage, None)
            && es[1..|tf.emitted| + 1] == tf.emitted
    ensures var tf := TfInit.InitTf(webgl, wasm, warmup, now).result;
            var loaded := Detection.LoadCoco(coco, remote, local, now).result.Ok?;
            Logger.Logged(es, Logger.Error, InitFailedMessage)
            <==> tf.Fail? || !loaded || (!(demo && videoMounted) && camera.Fail?)
    ensures TfInit.InitTf(webgl, wasm, warmup, now).result.Pass? && Detection.LoadCoco(coco, remote, local, now).result.Ok?
            ==> Logger.Logged(es, Logger.Info, ModelsLoadedMessage)
  {
    var tf := TfInit.InitTf(webgl, wasm, warmup, now);
    var start := Entry(now, Logger.Info, InitStartMessage, None);
    var rest := AfterBackend(tf.result, coco, remote, local, demo && videoMounted, camera, now);
    StartupLayout(start, tf.emitted, rest);
    [start] + tf.emitted + rest
  }

  /** The start entry, the backend start-up's entries and the rest: the
      camera-initialization error and the models-loaded entry can only come
      from the rest. */
  lemma StartupLayout(start: Logger.LogEntry, tfLog: seq<Logger.LogEntry>, rest: seq<Logger.LogEntry>)
    requires start.level == Logger.Info && start.message == InitStartMessage
    requires forall i :: 0 <= i < |tfLog| && tfLog[i].level == Logger.Error ==> tfLog[i].message == TfInit.InitFailureMessage
    ensures ([start] + tfLog + rest)[0] == start && ([start] + tfLog + rest)[1..|tfLog| + 1] == tfLog
    ensures Logger.Logged([start] + tfLog + rest, Logger.Error, InitFailedMessage)
            <==> Logger.Logged(rest, Logger.Error, InitFailedMessage)
    ensures Logger.Logged(rest, Logger.Info, ModelsLoadedMessage)
            ==> Logger.Logged([start] + tfLog + rest, Logger.Info, ModelsLoadedMessage)
  {
    TfLogIsNotCameraFailure(tfLog);
    StartThenRest(start, tfLog, rest, Logger.Error, InitFailedMessage);
    StartThenRest(start, tfLog, rest, Logger.Info, ModelsLoadedMessage);
  }

  lemma TfLogIsNotCameraFailure(es: seq<Logger.LogEntry>)
    requires forall i :: 0 <= i < |es| && es[i].level == Logger.Error ==> es[i].message == TfInit.InitFailureMessage
    ensures !Logger.Logged(es, Logger.Error, InitFailedMessage)
  {
    InitMessagesDistinct();
  }

  /** `Logged` and the layout of a start entry, a middle part and the rest. */
  lemma StartThenRest(start: Logger.LogEntry, mid: seq<Logger.LogEntry>, rest: seq<Logger.LogEntry>,
                      level: Logger.Level, message: string)
    requires start.level == Logger.Info && start.message == InitStartMessage
    requires message == ModelsLoadedMessage ==> level == Logger.Info
    ensures ([start] + mid + rest)[0] == start && ([start] + mid + rest)[1..|mid| + 1] == mid
    ensures Logger.Logged([start] + mid + rest, level, message)
            <==> (level == Logger.Info && message == InitStartMessage)
                 || Logger.Logged(mid, level, message) || Logger.Logged(rest, level, message)
  {
    Logger.LoggedSingle(start, level, message);
    Logger.LoggedAppend([start], mid, level, message);
    Logger.LoggedAppend([start] + mid, rest, level, message);
  }

  /** The start-up effect: `initTf`, then `loadCoco`, then the demo video
      when in demo mode with the video element mounted, otherwise the camera
      stream. Any rejection stops the sequence and its message becomes the
      screen's error, logged as the camera failing to initialize; a demo
      video that fails to play is only logged. */
  function Initialize(webgl: Outcome<string>, wasm: Outcome<string>, warmup: Outcome<string>,
                      coco: Detection.CocoState, remote: Result<Loaders.Handle, string>,
                      local: Result<Loaders.Handle, string>, demo: bool, videoMounted: bool,
                      camera: Outcome<string>, now: string): (r: Surface)
    ensures !r.loading
    ensures var tf := TfInit.InitTf(webgl, wasm, warmup, now).result;
            r.modelsLoaded <==> tf.Pass? && Detection.LoadCoco(coco, remote, local, now).result.Ok?
    ensures TfInit.InitTf(webgl, wasm, warmup, now).result.Fail? ==> r.coco == coco
    ensures r.cameraRequested <==> r.modelsLoaded && !(demo && videoMounted)
    ensures r.error.None? <==> r.modelsLoaded && ((demo && videoMounted) || camera.Pass?)
    ensures r.cameraRequested && camera.Fail? ==> r.error == Some(camera.error)
    ensures var tfLog := TfInit.InitTf(webgl, wasm, warmup, now).emitted;
            && |r.emitted| > |tfLog|
            && r.emitted[0] == Entry(now, Logger.Info, InitStartMessage, None)
            && r.emitted[1..|tfLog| + 1] == tfLog
    ensures Logger.Logged(r.emitted, Logger.Error, InitFailedMessage) <==> r.error.Some?
    ensures r.modelsLoaded ==> Logger.Logged(r.emitted, Logger.Info, ModelsLoadedMessage)
  {
    var emitted := StartupEntries(webgl, wasm, warmup, coco, remote, local, demo, videoMounted, camera, now);
    match TfInit.InitTf(webgl, wasm, warmup, now).result
    case Fail(e) => Surface(false, false, Some(e), coco, false, emitted)
    case Pass =>
      var ld := Detection.LoadCoco(coco, remote, local, now);
      match ld.result
      case Err(e) => Surface(false, false, Some(e.message), ld.state, false, emitted)
      case Ok(_) =>
        if demo && videoMounted then Surface(false, true, None, ld.state, false, emitted)
        else
          match camera
          case Pass => Surface(false, true, None, ld.state, true, emitted)
          case Fail(e) => Surface(false, true, Some(e), ld.state, true, emitted)
  }

  /** Without a mounted video element the demo flag changes nothing: the
      camera is requested as outside demo mode. */
  lemma DemoNeedsMountedVideo(webgl: Outcome<string>, wasm: Outcome<string>, warmup: Outcome<string>,
                              coco: Detection.CocoState, remote: Result<Loaders.Handle, string>,
                              local: Result<Loaders.Handle, string>, camera: Outcome<string>, now: string)
    ensures Initialize(webgl, wasm, warmup, coco, remote, local, true, false, camera, now)
            == Initialize(webgl, wasm, warmup, coco, remote, local, false, false, camera, now)
  {
  }

  /** On a fresh mount the screen still shows the spinner, so no video
      element exists when the start-up reaches the demo check: with the
      models loaded, demo mode asks for the camera, and a refused camera
      ends on the error screen. */
  lemma DemoOnFreshMountRequestsCamera(h: Loaders.Handle, message: string, now: string)
    ensures var r := Initialize(Pass, Pass, Pass, Detection.CocoState(Some(h), None), Err(""), Err(""),
                                true, false, Fail(message), now);
            && r.modelsLoaded && r.cameraRequested && r.error == Some(message)
            && Logger.Logged(r.emitted, Logger.Error, InitFailedMessage)
  {
  }

  /** The start-up as demo mode evidently intends it: the demo branch does
      not depend on the video element having been rendered yet. Demo mode
      then never asks for the camera, and ends without an error exactly when
      the models load. */
  function InitializeDemoWithoutCamera(webgl: Outcome<string>, wasm: Outcome<string>, warmup: Outcome<string>,
                                       coco: Detection.CocoState, remote: Result<Loaders.Handle, string>,
                                       local: Result<Loaders.Handle, string>, demo: bool,
                                       camera: Outcome<string>, now: string): (r: Surface)
    ensures demo ==> !r.cameraRequested && (r.error.None? <==> r.modelsLoaded)
    ensures !demo ==> r == Initialize(webgl, wasm, warmup, coco, remote, local, false, false, camera, now)
  {
    Initialize(webgl, wasm, warmup, coco, remote, local, demo, true, camera, now)
  }

  /** The detection loop's state: the frame counter, the published batch
      `dets`, and the overlay canvas. */
  datatype Loop = Loop(frameCount: nat, published: seq<Detection.Det>, overlayW: nat, overlayH: nat,
                       overlay: ImageOps.Ctx)

  const Throttle: nat := 8

  /** One `detectLoop` callback. A tick before the video has enough data
      only reschedules; a ready tick advances the counter and starts an
      inference on every 8th frame. Nothing waits for an earlier inference
      to finish. */
  function Tick(l: Loop, ready: bool): (r: (Loop, bool))
    ensures !ready ==> r == (l, false)
    ensures ready ==> r.0 == l.(frameCount := l.frameCount + 1)
    ensures ready ==> (r.1 <==> (l.frameCount + 1) % Throttle == 0)
  {
    if !ready then (l, false)
    else
      var n := l.frameCount + 1;
      (l.(frameCount := n), n % Throttle == 0)
  }

  /** The number of inferences started by a run of ticks, and the loop
      after them. */
  function RunTicks(l: Loop, ticks: seq<bool>): (r: (Loop, nat))
    decreases |ticks|
  {
    if |ticks| == 0 then (l, 0)
    else
      var (prev, n) := RunTicks(l, ticks[..|ticks| - 1]);
      var (next, submit) := Tick(prev, ticks[|ticks| - 1]);
      (next, if submit then n + 1 else n)
  }

  function CountReady(ticks: seq<bool>): nat
    decreases |ticks|
  {
    if |ticks| == 0 then 0 else CountReady(ticks[..|ticks| - 1]) + (if ticks[|ticks| - 1] then 1 else 0)
  }

  lemma DivStep(n: nat)
    ensures (n + 1) / 8 == n / 8 + (if (n + 1) % 8 == 0 then 1 else 0)
  {
  }

  /** Starting from counter `c`, ticks with `k` ready frames advance the
      counter by `k` and start one inference per multiple of 8 crossed. */
  lemma {:induction false} ThrottleCount(l: Loop, ticks: seq<bool>)
    ensures var (final, submitted) := RunTicks(l, ticks);
            && final == l.(frameCount := l.frameCount + CountReady(ticks))
            && submitted == (l.frameCount + CountReady(ticks)) / Throttle - l.frameCount / Throttle
    decreases |ticks|
  {
    if |ticks| > 0 {
      ThrottleCount(l, ticks[..|ticks| - 1]);
      DivStep(l.frameCount + CountReady(ticks[..|ticks| - 1]));
    }
  }

  /** From a fresh counter, `N` ready ticks start exactly `N / 8`
      inferences. */
  lemma ReadyTicksFromZero(l: Loop, ticks: seq<bool>)
    requires l.frameCount == 0
    ensures RunTicks(l, ticks).1 == CountReady(ticks) / Throttle
  {
    ThrottleCount(l, ticks);
  }

  /** A canvas's 2D context right after its size is set. */
  const FreshContext := ImageOps.Ctx(ImageOps.Style("#000000", "#000000", 1, "10px sans-serif"), [], [])

  /** The settling of one `detectFrame` promise, with the video's current
      size. A result replaces the published batch wholesale, the overlay is
      resized to the video (resetting its context) when the sizes differ,
      cleared, and redrawn. A rejection changes nothing and is logged unless
      it is the benign backend error. */
  function Settle(l: Loop, outcome: Result<seq<Detection.Det>, Loaders.InitError>, vw: nat, vh: nat,
                  now: string): (r: (Loop, seq<Logger.LogEntry>))
    ensures outcome.Ok? ==> && r.0.published == outcome.value
                            && r.0.frameCount == l.frameCount
                            && r.0.overlayW == vw && r.0.overlayH == vh
                            && |r.0.overlay.ops| == 2 * |outcome.value|
                            && r.1 == []
    ensures outcome.Ok? ==>
              && (forall i :: 0 <= i < |outcome.value|
                    ==> r.0.overlay.ops[2 * i] == ImageOps.BoxOp(outcome.value[i], ImageOps.OverlayStyle))
              && (forall i :: 0 <= i < |outcome.value|
                    ==> r.0.overlay.ops[2 * i + 1] == ImageOps.LabelOp(outcome.value[i], ImageOps.OverlayStyle))
    ensures outcome.Err? ==> r.0 == l
    ensures outcome.Err? ==> (r.1 != [] <==> !TfInit.IsBenignBackendError(outcome.error.message))
  {
    match outcome
    case Ok(dets) =>
      var ctx := if l.overlayW != vw || l.overlayH != vh then FreshContext else l.overlay;
      var cleared := ctx.(ops := []);
      (l.(published := dets, overlayW := vw, overlayH := vh,
          overlay := ImageOps.DrawDetections(cleared, dets)), [])
    case Err(e) =>
      if TfInit.IsBenignBackendError(e.message) then (l, [])
      else (l, [Logger.LogEntry(now, Logger.Warn, Category, "Detection error in loop", Some(map["error" := e.message]), None)])
  }

  /** Once the model is loaded, a failed inference still settles with a
      result, and that result is the empty batch: the published detections
      are cleared rather than kept. */
  lemma FailedInferenceClearsBatch(l: Loop, st: Detection.CocoState, remote: Result<Loaders.Handle, string>,
                                   local: Result<Loaders.Handle, string>, message: string, vw: nat, vh: nat, now: string)
    requires st.model.Some?
    ensures var step := Detection.DetectFrame(st, remote, local, Detection.Rejected(message), now);
            step.result.Ok? && Settle(l, step.result, vw, vh, now).0.published == []
  {
  }

  datatype CaptureStep = CaptureStep(slot: Option<Store.Draft>, faces: Faces.FaceState,
                                     navigated: bool, alerted: bool, emitted: seq<Logger.LogEntry>)

  /** The error record `log.error` keeps for a failed face blur. */
  function BlurErrorInfo(e: Faces.BlurError): Logger.ErrorInfo {
    match e
    case LoadFailed(cause) => Logger.ErrorInfo("ModelInitError", cause.message, None)
    case EstimateFailed(message) => Logger.ErrorInfo("Error", message, None)
  }

  /** The draft fields a successful capture writes. */
  function CapturePatch(image: string, counts: Math.Tally, municipalityId: string): Store.Patch {
    Store.NoFields.(imgDataUrl := Some(image), counts := Some(counts), municipalityId := Some(municipalityId))
  }

  const CaptureStartMessage: string := "Starting capture"
  const CaptureFailedMessage: string := "Capture failed"
  const CaptureCompleteMessage: string := "Capture complete"

  lemma CaptureMessagesDistinct()
    ensures CaptureStartMessage != CaptureCompleteMessage
  {
    assert CaptureStartMessage[0] != CaptureCompleteMessage[0];
  }

  /** The entries after the snapshot: the failure, or the blur,
      compression, counts and completion. */
  function CaptureOutcomeEntries(failure: Option<Logger.ErrorInfo>, now: string): (es: seq<Logger.LogEntry>)
    ensures Logger.Logged(es, Logger.Error, CaptureFailedMessage) <==> failure.Some?
    ensures Logger.Logged(es, Logger.Info, CaptureCompleteMessage) <==> failure.None?
  {
    match failure
    case Some(info) =>
      var failed := Entry(now, Logger.Error, CaptureFailedMessage, Some(info));
      Logger.LoggedSingle(failed, Logger.Error, CaptureFailedMessage);
      Logger.LoggedSingle(failed, Logger.Info, CaptureCompleteMessage);
      [failed]
    case None =>
      var es := [Entry(now, Logger.Debug, "Face blur complete", None),
                 Entry(now, Logger.Debug, "Image compressed", None),
                 Entry(now, Logger.Info, "Detection counts computed", None),
                 Entry(now, Logger.Info, CaptureCompleteMessage, None)];
      assert forall i :: 0 <= i < |es| ==> es[i].level != Logger.Error;
      assert es[3].level == Logger.Info && es[3].message == CaptureCompleteMessage;
      es
  }

  /** The entries of a capture with a video: the start and the snapshot,
      then the failure, or the blur, compression, counts and completion. */
  function CaptureEntries(failure: Option<Logger.ErrorInfo>, now: string): (es: seq<Logger.LogEntry>)
    ensures |es| > 0 && es[0] == Entry(now, Logger.Info, CaptureStartMessage, None)
    ensures Logger.Logged(es, Logger.Error, CaptureFailedMessage) <==> failure.Some?
    ensures Logger.Logged(es, Logger.Info, CaptureCompleteMessage) <==> failure.None?
  {
    var start := Entry(now, Logger.Info, CaptureStartMessage, None);
    var snapshot := Entry(now, Logger.Debug, "Video snapshot created", None);
    CaptureMessagesDistinct();
    Logger.LoggedSingle(start, Logger.Error, CaptureFailedMessage);
    Logger.LoggedSingle(start, Logger.Info, CaptureCompleteMessage);
    Logger.LoggedThen([start], snapshot, Logger.Error, CaptureFailedMessage);
    Logger.LoggedThen([start], snapshot, Logger.Info, CaptureCompleteMessage);
    var started := [start] + [snapshot];
    var rest := CaptureOutcomeEntries(failure, now);
    Logger.LoggedAppend(started, rest, Logger.Error, CaptureFailedMessage);
    Logger.LoggedAppend(started, rest, Logger.Info, CaptureCompleteMessage);
    started + rest
  }

  /** `onCapture()`. `video` is the video's size when the element exists;
      `frame` is the video drawn at the snapshot size. The counts come from
      the batch already published, not from a new inference. The draft is
      written only after every step has succeeded; on a failure the user is
      alerted and the draft is left as it was. */
  function Capture(slot: Option<Store.Draft>, video: Option<(nat, nat)>, frame: (nat, nat) -> ImageOps.Pixel,
                   published: seq<Detection.Det>, municipalityId: string, faces: Faces.FaceState,
                   remote: Result<Loaders.Handle, string>, local: Result<Loaders.Handle, string>,
                   estimate: Result<seq<Faces.Face>, string>, blurred: (nat, nat) -> ImageOps.Pixel,
                   encode: (ImageOps.Bitmap, real) -> string, freshId: string, now: string): (r: CaptureStep)
    ensures video.None? ==> r.slot == slot && r.faces == faces && !r.navigated && !r.alerted
    ensures r.navigated <==> !r.alerted && video.Some?
    ensures !r.navigated ==> r.slot == slot
    ensures video.None? ==> r.emitted == [Entry(now, Logger.Warn, "Capture attempted but video not available", None)]
    ensures video.Some? ==> |r.emitted| > 0 && r.emitted[0] == Entry(now, Logger.Info, CaptureStartMessage, None)
    ensures video.Some? ==> (Logger.Logged(r.emitted, Logger.Error, CaptureFailedMessage) <==> r.alerted)
    ensures video.Some? ==> (Logger.Logged(r.emitted, Logger.Info, CaptureCompleteMessage) <==> r.navigated)
    ensures video.Some? ==>
              var snapshot := ImageOps.Snapshot(video.value.0, video.value.1, ImageOps.DefaultTargetWidth, frame);
              var blur := Faces.BlurFacesOnCanvas(faces, snapshot, remote, local, estimate, blurred);
              && r.faces == blur.state
              && (r.navigated <==> blur.result.Ok?)
              && (r.navigated ==>
                    && r.slot.Some?
                    && r.slot.value.imgDataUrl == encode(blur.result.value, ImageOps.DefaultQuality)
                    && r.slot.value.counts == Math.TallyByClass(Detection.Labels(published))
                    && r.slot.value.municipalityId == municipalityId
                    && (slot.Some? ==> && r.slot.value.id == slot.value.id
                                       && r.slot.value.createdAt == slot.value.createdAt
                                       && r.slot.value.fillPercent == slot.value.fillPercent
                                       && r.slot.value.litersEst == slot.value.litersEst)
                    && (slot.None? ==> r.slot.value.fillPercent == 0 && r.slot.value.litersEst == 0))
  {
    match video
    case None =>
      CaptureStep(slot, faces, false, false, [Entry(now, Logger.Warn, "Capture attempted but video not available", None)])
    case Some((vw, vh)) =>
      var snapshot := ImageOps.Snapshot(vw, vh, ImageOps.DefaultTargetWidth, frame);
      var blur := Faces.BlurFacesOnCanvas(faces, snapshot, remote, local, estimate, blurred);
      match blur.result
      case Err(e) =>
        CaptureStep(slot, blur.state, false, true, CaptureEntries(Some(BlurErrorInfo(e)), now))
      case Ok(anonymised) =>
        var image := ImageOps.CompressCanvasToDataUrl(anonymised, encode);
        var counts := Math.TallyByClass(Detection.Labels(published));
        var slot' := Store.Set(slot, CapturePatch(image, counts, municipalityId), freshId, now);
        CaptureStep(slot', blur.state, true, false, CaptureEntries(None, now))
  }

  /** The batch the loop publishes passed the detection filter, so every
      captured detection lands in exactly one bucket: the three counts add
      up to the size of the batch. */
  lemma {:induction false} CaptureCountsPublished(published: seq<Detection.Det>)
    requires forall i :: 0 <= i < |published| ==> Detection.Published(published[i])
    ensures var t := Math.TallyByClass(Detection.Labels(published));
            t.bottle + t.cup + t.utensils == |published|
  {
    var labels := Detection.Labels(published);
    Math.TallyTotalIsRecognized(labels);
    AllRecognized(labels);
  }

  lemma {:induction false} AllRecognized(labels: seq<string>)
    requires forall i :: 0 <= i < |labels| ==> Constants.IsDetectClass(labels[i])
    ensures Math.CountRecognized(labels) == |labels|
    decreases |labels|
  {
    if |labels| > 0 {
      AllRecognized(labels[..|labels| - 1]);
    }
  }
}
